/** What a packet without findings guarantees: executable orders, activation order and causal conformance. */
module ArchitectureTheorems {
  import opened Common
  import opened Graphs
  import opened ArchitecturePacket
  import opened ParentChains

  /** What the validator accepts: it returns these findings without repetitions. */
  ghost predicate Accepted(p: Packet) {
    3 <= p.version <= 6 && Dedup(ArchitectureFindings(p)) == []
  }

  lemma TenEmpty(a: seq<Finding>, b: seq<Finding>, c: seq<Finding>, d: seq<Finding>, e: seq<Finding>,
                 f: seq<Finding>, g: seq<Finding>, h: seq<Finding>, i: seq<Finding>, j: seq<Finding>)
    requires a + b + c + d + e + f + g + h + i + j == []
    ensures a == [] && b == [] && c == [] && d == [] && e == [] && f == [] && g == [] && h == [] && i == [] && j == []
  {
    assert |a + b + c + d + e + f + g + h + i + j| == |a| + |b| + |c| + |d| + |e| + |f| + |g| + |h| + |i| + |j|;
  }

  lemma FourEmpty(a: seq<Finding>, b: seq<Finding>, c: seq<Finding>, d: seq<Finding>)
    requires a + b + c + d == []
    ensures a == [] && b == [] && c == [] && d == []
  {
    assert |a + b + c + d| == |a| + |b| + |c| + |d|;
  }

  lemma SixEmpty(a: seq<Finding>, b: seq<Finding>, c: seq<Finding>, d: seq<Finding>, e: seq<Finding>, f: seq<Finding>)
    requires a + b + c + d + e + f == []
    ensures a == [] && b == [] && c == [] && d == [] && e == [] && f == []
  {
    assert |a + b + c + d + e + f| == |a| + |b| + |c| + |d| + |e| + |f|;
  }

  lemma NoFindings(p: Packet)
    requires Accepted(p)
    ensures BoundaryFindings(p) == [] && OwnerMapFindings(p) == [] && PlanFindings(p) == [] && UnitFindings(p) == []
    ensures HandoffFindings(p) == [] && GateFindings(p) == [] && EmissionFindings(p) == []
    ensures p.version == 6 ==> ChainFindings(p) == []
  {
    TenEmpty(BoundaryFindings(p), OwnerMapFindings(p), PlanFindings(p), UnitFindings(p), HandoffFindings(p),
             GateFindings(p), EmissionFindings(p),
             if p.version == 6 then ChainFindings(p) else [],
             if p.version == 5 || p.version == 6 then ConformanceFindings(p) else [], SnapshotFindings(p));
  }

  /** A cycle among the nodes is exactly the absence of a linear order of them. */
  lemma CycleIffUnorderable(nodes: set<Id>, edges: seq<Edge>)
    ensures !HasCycle(Inside(nodes, edges)) <==> exists order :: TopologicalOrder(nodes, Inside(nodes, edges), order)
  {
    if !HasCycle(Inside(nodes, edges)) {
      var order := AcyclicHasOrder(nodes, Inside(nodes, edges));
    }
    if order :| TopologicalOrder(nodes, Inside(nodes, edges), order) {
      OrderedIsAcyclic(nodes, Inside(nodes, edges), order);
    }
  }

  // ----- lookups

  lemma UnitLookup(p: Packet, id: Id)
    ensures id in UnitById(p) <==> id in UnitIds(p)
    ensures id in UnitById(p) ==> UnitById(p)[id] in p.units && UnitById(p)[id].id == id
  {
    LastWinsKeys(UnitPairs(p), id);
    if id in UnitIds(p) {
      var i :| 0 <= i < |p.units| && UnitIds(p)[i] == id;
      assert UnitPairs(p)[i].0 == id;
    }
    if i :| 0 <= i < |UnitPairs(p)| && UnitPairs(p)[i].0 == id {
      assert UnitIds(p)[i] == id;
    }
  }

  lemma GateLookup(p: Packet, id: Id)
    ensures id in GateById(p) <==> id in GateIds(p)
    ensures id in GateById(p) ==> GateById(p)[id] in p.gates && GateById(p)[id].id == id
  {
    LastWinsKeys(GatePairs(p), id);
    if id in GateIds(p) {
      var i :| 0 <= i < |p.gates| && GateIds(p)[i] == id;
      assert GatePairs(p)[i].0 == id;
    }
    if i :| 0 <= i < |GatePairs(p)| && GatePairs(p)[i].0 == id {
      assert GateIds(p)[i] == id;
    }
  }

  lemma PlanLookup(p: Packet, item: Id)
    ensures item in PlanOf(p) ==> PlanOf(p)[item] in p.plan && PlanOf(p)[item].item == item
  {
    LastWinsKeys(PlanPairs(p), item);
  }

  lemma AssignmentMembers(p: Packet, u: LandingUnit, item: Id)
    requires u in p.units && item in u.covered
    ensures (item, u.id) in Assignments(p)
  {
    var i :| 0 <= i < |p.units| && p.units[i] == u;
    var j :| 0 <= j < |u.covered| && u.covered[j] == item;
    assert UnitAssignments(u)[j] == (item, u.id);
    assert (item, u.id) in PerUnitAssignments(p.units[i]);
    FlatMapMembers(p.units, PerUnitAssignments, (item, u.id));
  }

  /** With every item assigned once, an item's unit is the one that lists it. */
  lemma AssignedUnit(p: Packet, u: LandingUnit, item: Id)
    requires UnitFindings(p) == []
    requires u in p.units && item in u.covered
    ensures item in UnitOf(p) && UnitOf(p)[item] == u.id
  {
    var pairs := Assignments(p);
    ElementCount(AssignedItems(p));
    forall j, k | 0 <= j < k < |pairs|
      ensures pairs[j].0 != pairs[k].0
    {
      assert AssignedItems(p)[j] == pairs[j].0 && AssignedItems(p)[k] == pairs[k].0;
    }
    AssignmentMembers(p, u, item);
    var i :| 0 <= i < |pairs| && pairs[i] == (item, u.id);
    LastWinsDistinct(pairs, i);
  }

  /** Every covered item has a declared Landing Unit. */
  lemma EveryItemHasUnit(p: Packet, item: Id)
    requires UnitFindings(p) == [] && item in Covered(p)
    ensures item in UnitOf(p) && UnitOf(p)[item] in UnitIds(p)
  {
    var pairs := Assignments(p);
    assert item in Elements(AssignedItems(p));
    var i :| 0 <= i < |pairs| && AssignedItems(p)[i] == item;
    assert pairs[i].0 == item;
    LastWinsKeys(pairs, item);
    var pair := (item, UnitOf(p)[item]);
    FlatMapMembers(p.units, PerUnitAssignments, pair);
    var k :| 0 <= k < |p.units| && pair in PerUnitAssignments(p.units[k]);
    assert UnitIds(p)[k] == p.units[k].id == pair.1;
  }

  lemma SourceNodesAreUnits(p: Packet, id: Id)
    requires UnitFindings(p) == [] && id in p.sourceNodes
    ensures id in UnitIds(p)
  {
    assert id in Elements(p.sourceNodes);
    assert id in SourceBacked(p);
    var u :| u in p.units && u.sourceBacked && u.id == id;
    var k :| 0 <= k < |p.units| && p.units[k] == u;
    assert UnitIds(p)[k] == id;
  }

  lemma {:induction false} PrerequisiteEdgeMembers(covered: set<Id>, listed: seq<Id>, item: Id, e: Edge)
    ensures e in PrerequisiteEdges(covered, listed, item) <==>
            e.target == item && e.source in listed && e.source in covered && e.source != item
    decreases |listed|
  {
    if listed != [] {
      PrerequisiteEdgeMembers(covered, listed[..|listed| - 1], item, e);
      assert listed == listed[..|listed| - 1] + [listed[|listed| - 1]];
    }
  }

  // ----- runtime boundaries

  lemma NothingMissing<T>(a: set<T>, b: set<T>, x: T)
    requires a - b == {} && x in a
    ensures x in b
  {
    assert x !in a - b;
  }

  lemma BoundaryLookup(p: Packet, b: Boundary)
    requires NoRepeats(BoundaryOwners(p)) && b in p.boundaries
    ensures CapabilitiesOf(AllowedPairs(p), b.owner) == Listed(b.allowed)
    ensures CapabilitiesOf(ProhibitedPairs(p), b.owner) == Listed(b.prohibited)
    ensures b.owner in Dedup(BoundaryOwners(p))
  {
    var i :| 0 <= i < |p.boundaries| && p.boundaries[i] == b;
    assert BoundaryOwners(p)[i] == b.owner;
    assert forall j :: 0 <= j < |p.boundaries| ==>
             AllowedPairs(p)[j].0 == BoundaryOwners(p)[j] == ProhibitedPairs(p)[j].0;
    LastWinsDistinct(AllowedPairs(p), i);
    LastWinsDistinct(ProhibitedPairs(p), i);
  }

  lemma CapabilitiesAreSound(p: Packet)
    requires CapabilityFindings(p) == []
    ensures PERSIST in CapabilitiesOf(AllowedPairs(p), CUSTODY_OWNER)
    ensures ORCHESTRATION_CAPABILITIES - CapabilitiesOf(AllowedPairs(p), ORCHESTRATION_OWNER) == {}
    ensures {PERSIST, PROJECT_CONTENT} - CapabilitiesOf(ProhibitedPairs(p), ORCHESTRATION_OWNER) == {}
    ensures forall owner :: owner in BoundaryOwners(p) ==> PerBoundaryOwner(p)(owner) == []
  {
    FourEmpty(When(PERSIST !in CapabilitiesOf(AllowedPairs(p), CUSTODY_OWNER), PersistenceUnassigned),
              When(ORCHESTRATION_CAPABILITIES - CapabilitiesOf(AllowedPairs(p), ORCHESTRATION_OWNER) != {},
                   OrchestrationIncomplete),
              When({PERSIST, PROJECT_CONTENT} - CapabilitiesOf(ProhibitedPairs(p), ORCHESTRATION_OWNER) != {},
                   OrchestrationUnlimited),
              FlatMap(Dedup(BoundaryOwners(p)), PerBoundaryOwner(p)));
    FlatMapEmpty(Dedup(BoundaryOwners(p)), PerBoundaryOwner(p));
  }

  /** What one boundary among distinct owners may list. */
  ghost predicate KeepsCustody(b: Boundary) {
    && (PERSIST in Listed(b.allowed) <==> b.owner == CUSTODY_OWNER)
    && PROJECT_CONTENT !in Listed(b.allowed)
    && (b.owner == ORCHESTRATION_OWNER ==>
          ORCHESTRATION_CAPABILITIES <= Listed(b.allowed) && PERSIST in Listed(b.prohibited)
          && PROJECT_CONTENT in Listed(b.prohibited))
  }

  lemma BoundaryIsSound(p: Packet, b: Boundary)
    requires CapabilityFindings(p) == [] && NoRepeats(BoundaryOwners(p)) && b in p.boundaries
    ensures KeepsCustody(b)
  {
    CapabilitiesAreSound(p);
    BoundaryLookup(p, b);
    assert PerBoundaryOwner(p)(b.owner) == [];
    if b.owner == ORCHESTRATION_OWNER {
      NothingMissing({PERSIST, PROJECT_CONTENT}, Listed(b.prohibited), PERSIST);
      NothingMissing({PERSIST, PROJECT_CONTENT}, Listed(b.prohibited), PROJECT_CONTENT);
      forall capability | capability in ORCHESTRATION_CAPABILITIES
        ensures capability in Listed(b.allowed)
      {
        NothingMissing(ORCHESTRATION_CAPABILITIES, Listed(b.allowed), capability);
      }
    }
  }

  lemma OwnerHasBoundary(p: Packet, owner: Id)
    requires CapabilitiesOf(AllowedPairs(p), owner) != {}
    ensures exists b :: b in p.boundaries && b.owner == owner
  {
    LastWinsKeys(AllowedPairs(p), owner);
    var i :| 0 <= i < |AllowedPairs(p)| && AllowedPairs(p)[i].0 == owner;
    assert p.boundaries[i] in p.boundaries;
  }

  /**
   In an accepted packet whose boundaries list capabilities the control fabric has a boundary and is the
   one owner that may persist artifacts, nobody may project their content, and the orchestration owner
   has a boundary that grants its part and bars it from both.
   */
  lemma CustodyIsExclusive(p: Packet)
    requires Accepted(p) && UsesCapabilities(p)
    ensures forall b :: b in p.boundaries ==> KeepsCustody(b)
    ensures exists b :: b in p.boundaries && b.owner == CUSTODY_OWNER
    ensures exists b :: b in p.boundaries && b.owner == ORCHESTRATION_OWNER
  {
    NoFindings(p);
    assert CapabilityFindings(p) == [];
    ElementCount(BoundaryOwners(p));
    CapabilitiesAreSound(p);
    OwnerHasBoundary(p, CUSTODY_OWNER);
    NothingMissing(ORCHESTRATION_CAPABILITIES, CapabilitiesOf(AllowedPairs(p), ORCHESTRATION_OWNER),
                   "delivery-art.author-canonical-artifacts");
    OwnerHasBoundary(p, ORCHESTRATION_OWNER);
    forall b | b in p.boundaries
      ensures KeepsCustody(b)
    {
      BoundaryIsSound(p, b);
    }
  }

  // ----- work items

  /** Whatever the plan lists as a start or close prerequisite comes first. */
  ghost predicate RespectsPlan(p: Packet, order: seq<Id>) {
    forall entry, before :: entry in p.plan && (before in entry.startAfter || before in entry.closeAfter) ==>
      Precedes(order, before, entry.item)
  }

  /** An accepted plan's prerequisites are covered items and become schedule edges. */
  lemma PrerequisiteIsEdge(p: Packet, entry: PlanEntry, before: Id)
    requires PlanFindings(p) == [] && entry in p.plan
    requires before in entry.startAfter || before in entry.closeAfter
    ensures Edge(before, entry.item) in ScheduleEdges(p)
    ensures before in Covered(p) && entry.item in Covered(p)
  {
    FlatMapEmpty(p.plan, PerPlanEntry(p));
    assert PerPlanEntry(p)(entry) == [];
    var starts, closes := Elements(entry.startAfter), Elements(entry.closeAfter);
    assert before in starts + closes;
    assert before !in (starts + closes) - Covered(p);
    var i :| 0 <= i < |p.plan| && p.plan[i] == entry;
    assert PlanItems(p)[i] == entry.item && entry.item in Elements(PlanItems(p));
    PrerequisiteEdgeMembers(Covered(p), entry.startAfter + entry.closeAfter, entry.item, Edge(before, entry.item));
    assert Edge(before, entry.item) in PerEntrySchedule(Covered(p))(p.plan[i]);
    FlatMapMembers(p.plan, PerEntrySchedule(Covered(p)), Edge(before, entry.item));
  }

  /** An accepted packet's work items have one linear order that respects every start and close prerequisite. */
  lemma WorkItemsHaveOrder(p: Packet) returns (order: seq<Id>)
    requires Accepted(p)
    ensures Lists(Covered(p), order) && RespectsPlan(p, order)
  {
    NoFindings(p);
    var edges := Inside(Covered(p), ScheduleEdges(p));
    order := AcyclicHasOrder(Covered(p), edges);
    forall entry, before | entry in p.plan && (before in entry.startAfter || before in entry.closeAfter)
      ensures Precedes(order, before, entry.item)
    {
      PrerequisiteIsEdge(p, entry, before);
      var e := Edge(before, entry.item);
      assert e in edges;
      assert Precedes(order, e.source, e.target);
    }
  }

  lemma OwnerLookup(p: Packet, item: Id)
    ensures item in ParentOf(p) <==> item in OwnerItems(p)
  {
    var pairs := seq(|p.owners|, i requires 0 <= i < |p.owners| => (p.owners[i].item, p.owners[i].parent));
    LastWinsKeys(pairs, item);
    if item in OwnerItems(p) {
      var i :| 0 <= i < |p.owners| && OwnerItems(p)[i] == item;
      assert pairs[i].0 == item;
    }
    if i :| 0 <= i < |pairs| && pairs[i].0 == item {
      assert OwnerItems(p)[i] == item;
    }
  }

  lemma OwnerMapIsSound(p: Packet, item: Id)
    requires OwnerMapFindings(p) == []
    ensures Elements(OwnerItems(p)) == Covered(p)
    ensures item in OwnerItems(p) ==> !Endless(ParentOf(p), item)
    ensures item in OwnerItems(p) && item in ParentOf(p) && ParentOf(p)[item].Some? ==>
              ParentOf(p)[item].value in Covered(p)
  {
    var ids := OwnerItems(p);
    var owned, walks := FlatMap(Dedup(ids), PerOwnedItem(p)), FlatMap(Dedup(ids), PerWalkStart(p));
    SixEmpty([], When(|ids| != |Elements(ids)|, OwnerMapRepeats), When(Elements(ids) != Covered(p), OwnerMapCoverage),
             When(ParentOf(p) != map[] && None !in ParentOf(p).Values, NoRoot), owned, walks);
    if item in ids {
      FlatMapEmpty(Dedup(ids), PerOwnedItem(p));
      FlatMapEmpty(Dedup(ids), PerWalkStart(p));
      assert PerOwnedItem(p)(item) == [] && PerWalkStart(p)(item) == [];
    }
  }

  /** In an accepted packet every item's parent chain ends at a covered root. */
  lemma ParentsEndAtRoot(p: Packet, item: Id)
    requires Accepted(p) && item in Covered(p)
    ensures exists root :: root in ParentOf(p) && ParentOf(p)[root] == None &&
                           (root == item || Ancestor(ParentOf(p), item, root))
  {
    NoFindings(p);
    OwnerMapIsSound(p, item);
    assert item in Elements(OwnerItems(p));
    OwnerLookup(p, item);
    EndsSomewhere(ParentOf(p), item);
    var top :| top in ParentOf(p) && (top == item || Ancestor(ParentOf(p), item, top)) &&
               (ParentOf(p)[top].None? || ParentOf(p)[top].value !in ParentOf(p));
    OwnerLookup(p, top);
    OwnerMapIsSound(p, top);
    if ParentOf(p)[top].Some? {
      OwnerLookup(p, ParentOf(p)[top].value);
    }
  }

  // ----- Landing Units

  lemma UnitEdgeMember(p: Packet, before: Id, after: Id)
    requires before in UnitIds(p) && after in UnitIds(p) && before != after
    ensures UnitEdge(p, Some(before), Some(after)) == [Edge(before, after)]
  {
  }

  /** A prerequisite that crosses Landing Units is an edge of the combined unit graph. */
  lemma CrossUnitIsEdge(p: Packet, entry: PlanEntry, before: Id)
    requires PlanFindings(p) == [] && UnitFindings(p) == [] && entry in p.plan
    requires before in entry.startAfter || before in entry.closeAfter
    ensures before in UnitOf(p) && entry.item in UnitOf(p)
    ensures UnitOf(p)[before] != UnitOf(p)[entry.item] ==>
              Edge(UnitOf(p)[before], UnitOf(p)[entry.item]) in CombinedUnitEdges(p)
  {
    PrerequisiteIsEdge(p, entry, before);
    EveryItemHasUnit(p, before);
    EveryItemHasUnit(p, entry.item);
    var a, b := UnitOf(p)[before], UnitOf(p)[entry.item];
    if a != b {
      UnitEdgeMember(p, a, b);
      var i :| 0 <= i < |ScheduleEdges(p)| && ScheduleEdges(p)[i] == Edge(before, entry.item);
      assert Edge(a, b) in PerScheduleEdge(p)(ScheduleEdges(p)[i]);
      FlatMapMembers(ScheduleEdges(p), PerScheduleEdge(p), Edge(a, b));
    }
  }

  /** An early gate's authority unit precedes the other units it blocks. */
  lemma EarlyGateIsEdge(p: Packet, gate: Gate, unitId: Id)
    requires UnitFindings(p) == [] && GateFindings(p) == []
    requires gate in p.gates && (gate.blocked == BeforeImplementation || gate.blocked == BeforeSourceMerge)
    requires unitId in gate.affected
    ensures gate.authorityItem in UnitOf(p) && unitId in UnitIds(p)
    ensures UnitOf(p)[gate.authorityItem] != unitId ==>
              Edge(UnitOf(p)[gate.authorityItem], unitId) in CombinedUnitEdges(p)
  {
    FlatMapEmpty(p.gates, PerGate(p));
    assert PerGate(p)(gate) == [];
    assert gate.authorityItem in Covered(p);
    EveryItemHasUnit(p, gate.authorityItem);
    assert unitId in Elements(gate.affected);
    assert unitId !in Elements(gate.affected) - Elements(UnitIds(p));
    var a := UnitOf(p)[gate.authorityItem];
    if a != unitId {
      UnitEdgeMember(p, a, unitId);
      var j :| 0 <= j < |gate.affected| && gate.affected[j] == unitId;
      assert Edge(a, unitId) in PerAffectedUnit(p, gate)(gate.affected[j]);
      FlatMapMembers(gate.affected, PerAffectedUnit(p, gate), Edge(a, unitId));
      var i :| 0 <= i < |p.gates| && p.gates[i] == gate;
      assert Edge(a, unitId) in PerEarlyGate(p)(p.gates[i]);
      FlatMapMembers(p.gates, PerEarlyGate(p), Edge(a, unitId));
    }
  }

  ghost predicate RespectsSources(p: Packet, order: seq<Id>) {
    forall e :: e in p.sourceEdges ==> Precedes(order, e.source, e.target)
  }

  ghost predicate RespectsPrerequisites(p: Packet, order: seq<Id>) {
    forall entry, before ::
      entry in p.plan && (before in entry.startAfter || before in entry.closeAfter) ==>
      before in UnitOf(p) && entry.item in UnitOf(p) &&
      (UnitOf(p)[before] != UnitOf(p)[entry.item] ==> Precedes(order, UnitOf(p)[before], UnitOf(p)[entry.item]))
  }

  ghost predicate RespectsEarlyGates(p: Packet, order: seq<Id>) {
    forall gate, unitId ::
      gate in p.gates && (gate.blocked == BeforeImplementation || gate.blocked == BeforeSourceMerge)
      && unitId in gate.affected ==>
      gate.authorityItem in UnitOf(p) &&
      (UnitOf(p)[gate.authorityItem] != unitId ==> Precedes(order, UnitOf(p)[gate.authorityItem], unitId))
  }

  /** `order` respects source landings, cross-unit prerequisites and early human gates together. */
  ghost predicate RespectsLanding(p: Packet, order: seq<Id>) {
    RespectsSources(p, order) && RespectsPrerequisites(p, order) && RespectsEarlyGates(p, order)
  }

  lemma UnitEdgesAreDeclared(p: Packet, before: Option<Id>, after: Option<Id>, e: Edge)
    requires e in UnitEdge(p, before, after)
    ensures e.source in UnitIds(p) && e.target in UnitIds(p)
  {
  }

  lemma CrossEdgesAreDeclared(p: Packet, e: Edge)
    requires e in CrossUnitEdges(p)
    ensures e.source in UnitIds(p) && e.target in UnitIds(p)
  {
    FlatMapMembers(ScheduleEdges(p), PerScheduleEdge(p), e);
    var i :| 0 <= i < |ScheduleEdges(p)| && e in PerScheduleEdge(p)(ScheduleEdges(p)[i]);
    var w := ScheduleEdges(p)[i];
    UnitEdgesAreDeclared(p, Get(UnitOf(p), w.source), Get(UnitOf(p), w.target), e);
  }

  lemma EarlyEdgesAreDeclared(p: Packet, e: Edge)
    requires e in EarlyGateEdges(p)
    ensures e.source in UnitIds(p) && e.target in UnitIds(p)
  {
    FlatMapMembers(p.gates, PerEarlyGate(p), e);
    var i :| 0 <= i < |p.gates| && e in PerEarlyGate(p)(p.gates[i]);
    var gate := p.gates[i];
    FlatMapMembers(gate.affected, PerAffectedUnit(p, gate), e);
    var j :| 0 <= j < |gate.affected| && e in PerAffectedUnit(p, gate)(gate.affected[j]);
    UnitEdgesAreDeclared(p, Get(UnitOf(p), gate.authorityItem), Some(gate.affected[j]), e);
  }

  lemma CombinedEdgesInside(p: Packet, e: Edge)
    requires UnitFindings(p) == [] && e in CombinedUnitEdges(p)
    ensures e in Inside(Elements(UnitIds(p)), CombinedUnitEdges(p))
  {
    if e in SourceOrder(p) {
      SourceNodesAreUnits(p, e.source);
      SourceNodesAreUnits(p, e.target);
    } else if e in CrossUnitEdges(p) {
      CrossEdgesAreDeclared(p, e);
    } else {
      EarlyEdgesAreDeclared(p, e);
    }
  }

  lemma SourceEdgesAreCombined(p: Packet)
    requires FlatMap(p.sourceEdges, PerSourceEdge(p)) == []
    ensures forall e :: e in p.sourceEdges ==> e in CombinedUnitEdges(p)
  {
    FlatMapEmpty(p.sourceEdges, PerSourceEdge(p));
    forall e | e in p.sourceEdges
      ensures e in CombinedUnitEdges(p)
    {
      assert PerSourceEdge(p)(e) == [];
      assert e in SourceOrder(p);
    }
  }

  lemma OrderRespectsSources(p: Packet, order: seq<Id>)
    requires Accepted(p) && Respects(order, CombinedUnitEdges(p))
    ensures RespectsSources(p, order)
  {
    NoFindings(p);
    SourceEdgesAreCombined(p);
  }

  lemma OrderRespectsPrerequisites(p: Packet, order: seq<Id>)
    requires Accepted(p) && Respects(order, CombinedUnitEdges(p))
    ensures RespectsPrerequisites(p, order)
  {
    NoFindings(p);
    forall entry, before | entry in p.plan && (before in entry.startAfter || before in entry.closeAfter)
      ensures before in UnitOf(p) && entry.item in UnitOf(p)
      ensures UnitOf(p)[before] != UnitOf(p)[entry.item] ==> Precedes(order, UnitOf(p)[before], UnitOf(p)[entry.item])
    {
      CrossUnitIsEdge(p, entry, before);
      var e := Edge(UnitOf(p)[before], UnitOf(p)[entry.item]);
      assert e in CombinedUnitEdges(p) ==> Precedes(order, e.source, e.target);
    }
  }

  lemma OrderRespectsEarlyGates(p: Packet, order: seq<Id>)
    requires Accepted(p) && Respects(order, CombinedUnitEdges(p))
    ensures RespectsEarlyGates(p, order)
  {
    NoFindings(p);
    forall gate, unitId | gate in p.gates && (gate.blocked == BeforeImplementation || gate.blocked == BeforeSourceMerge)
                          && unitId in gate.affected
      ensures gate.authorityItem in UnitOf(p)
      ensures UnitOf(p)[gate.authorityItem] != unitId ==> Precedes(order, UnitOf(p)[gate.authorityItem], unitId)
    {
      EarlyGateIsEdge(p, gate, unitId);
      var e := Edge(UnitOf(p)[gate.authorityItem], unitId);
      assert e in CombinedUnitEdges(p) ==> Precedes(order, e.source, e.target);
    }
  }

  /**
   In an accepted packet the orders of Landing Units that respect the combined graph respect all three
   sources of order.
   */
  lemma OrderRespectsLanding(p: Packet, order: seq<Id>)
    requires Accepted(p) && Respects(order, CombinedUnitEdges(p))
    ensures RespectsLanding(p, order)
  {
    OrderRespectsSources(p, order);
    OrderRespectsPrerequisites(p, order);
    OrderRespectsEarlyGates(p, order);
  }

  /** One single order of all Landing Units respects source landings, cross-unit prerequisites and early gates. */
  lemma LandingUnitsHaveOrder(p: Packet) returns (order: seq<Id>)
    requires Accepted(p)
    ensures Lists(Elements(UnitIds(p)), order) && Respects(order, CombinedUnitEdges(p))
    ensures RespectsLanding(p, order)
  {
    NoFindings(p);
    var nodes := Elements(UnitIds(p));
    order := AcyclicHasOrder(nodes, Inside(nodes, CombinedUnitEdges(p)));
    forall e | e in CombinedUnitEdges(p)
      ensures Precedes(order, e.source, e.target)
    {
      CombinedEdgesInside(p, e);
    }
    OrderRespectsLanding(p, order);
  }

  // ----- handoffs

  /** What an accepted handoff satisfies. */
  lemma HandoffIsSound(p: Packet, h: Handoff)
    requires HandoffFindings(p) == [] && h in p.handoffs
    ensures h.producer != h.consumer
    ensures h.producerUnit in UnitById(p) && UnitById(p)[h.producerUnit].owner == h.producer
    ensures h.consumerUnit in UnitById(p) && UnitById(p)[h.consumerUnit].owner == h.consumer
    ensures Get(UnitOf(p), h.producerItem) == Some(h.producerUnit)
            && Get(UnitOf(p), h.consumerItem) == Some(h.consumerUnit)
    ensures !SourceUnordered(p, h.producerUnit, h.consumerUnit)
  {
    FlatMapEmpty(p.handoffs, PerHandoff(p));
    assert PerHandoff(p)(h) == [];
    SixEmpty(When(h.producer == h.consumer, HandoffSameOwner(h.id)), HandoffUnit(p, h, true), HandoffUnit(p, h, false),
             HandoffItem(p, h, true), HandoffItem(p, h, false),
             if SourceUnordered(p, h.producerUnit, h.consumerUnit) then [HandoffUnordered(h.id)] else []);
  }

  lemma RespectsSourceOrder(p: Packet, order: seq<Id>)
    requires Respects(order, CombinedUnitEdges(p))
    ensures Respects(order, SourceOrder(p))
  {
    forall e | e in SourceOrder(p)
      ensures Precedes(order, e.source, e.target)
    {
      assert e in CombinedUnitEdges(p);
    }
  }

  /**
   A handoff of an accepted packet leads from the unit of its producing item to that of its consuming
   item, and these have different owners. When both units are backed by source, the producing one
   strictly precedes the consuming one in every order of the Landing Units that respects the combined graph.
   */
  lemma HandoffsGoForward(p: Packet, h: Handoff, order: seq<Id>)
    requires Accepted(p) && h in p.handoffs
    requires Lists(Elements(UnitIds(p)), order) && Respects(order, CombinedUnitEdges(p))
    ensures Get(UnitOf(p), h.producerItem) == Some(h.producerUnit)
            && Get(UnitOf(p), h.consumerItem) == Some(h.consumerUnit)
    ensures h.producerUnit in UnitById(p) && h.consumerUnit in UnitById(p)
    ensures UnitById(p)[h.producerUnit].owner != UnitById(p)[h.consumerUnit].owner
    ensures UnitById(p)[h.producerUnit].sourceBacked && UnitById(p)[h.consumerUnit].sourceBacked ==>
              Precedes(order, h.producerUnit, h.consumerUnit)
  {
    NoFindings(p);
    HandoffIsSound(p, h);
    UnitLookup(p, h.producerUnit);
    UnitLookup(p, h.consumerUnit);
    if UnitById(p)[h.producerUnit].sourceBacked && UnitById(p)[h.consumerUnit].sourceBacked {
      ActivationIsSourceNode(p, UnitById(p)[h.producerUnit]);
      ActivationIsSourceNode(p, UnitById(p)[h.consumerUnit]);
      RespectsSourceOrder(p, order);
      ReachesRespectsOrder(Elements(UnitIds(p)), SourceOrder(p), order, h.producerUnit, h.consumerUnit);
    }
  }

  // ----- gate emissions

  /** Every emission is an entry of the plan naming the gate. */
  lemma EmissionMembers(p: Packet, gateId: Id, item: Id)
    ensures Edge(gateId, item) in Emissions(p) <==>
            exists entry :: entry in p.plan && entry.item == item && gateId in entry.emits
  {
    FlatMapMembers(p.plan, PerEntryEmissions, Edge(gateId, item));
    if i :| 0 <= i < |p.plan| && Edge(gateId, item) in PerEntryEmissions(p.plan[i]) {
      var entry := p.plan[i];
      var j :| 0 <= j < |entry.emits| && EntryEmissions(entry)[j] == Edge(gateId, item);
      assert entry in p.plan && entry.item == item && entry.emits[j] == gateId;
    }
    if entry :| entry in p.plan && entry.item == item && gateId in entry.emits {
      var i :| 0 <= i < |p.plan| && p.plan[i] == entry;
      var j :| 0 <= j < |entry.emits| && entry.emits[j] == gateId;
      assert EntryEmissions(entry)[j] == Edge(gateId, item);
      assert Edge(gateId, item) in PerEntryEmissions(p.plan[i]);
    }
  }

  lemma EmittedMembers(p: Packet, gateId: Id)
    ensures gateId in EmittedGates(p) <==> exists entry :: entry in p.plan && gateId in entry.emits
  {
    var sources := seq(|Emissions(p)|, i requires 0 <= i < |Emissions(p)| => Emissions(p)[i].source);
    if gateId in EmittedGates(p) {
      var i :| 0 <= i < |Emissions(p)| && sources[i] == gateId;
      var e := Emissions(p)[i];
      assert e == Edge(gateId, e.target) && e in Emissions(p);
      EmissionMembers(p, gateId, e.target);
    }
    if entry :| entry in p.plan && gateId in entry.emits {
      EmissionMembers(p, gateId, entry.item);
      var i :| 0 <= i < |Emissions(p)| && Emissions(p)[i] == Edge(gateId, entry.item);
      assert sources[i] == gateId;
    }
  }

  lemma {:induction false} TargetsConcat(a: seq<Edge>, b: seq<Edge>, u: Id)
    ensures Targets(a + b, u) == Targets(a, u) + Targets(b, u)
    decreases |b|
  {
    if b == [] {
      assert a + b == a;
    } else {
      TargetsConcat(a, b[..|b| - 1], u);
      assert (a + b)[..|a + b| - 1] == a + b[..|b| - 1];
    }
  }

  /** A plan entry contributes one emission of a gate per mention. */
  lemma {:induction false} EntryTargets(emits: seq<Id>, item: Id, gateId: Id)
    ensures |Targets(EntryEmissions(PlanEntry(item, [], [], emits)), gateId)| == multiset(emits)[gateId]
    decreases |emits|
  {
    var edges := EntryEmissions(PlanEntry(item, [], [], emits));
    if emits != [] {
      var front := emits[..|emits| - 1];
      EntryTargets(front, item, gateId);
      assert edges[..|edges| - 1] == EntryEmissions(PlanEntry(item, [], [], front));
      assert emits == front + [emits[|emits| - 1]];
    }
  }

  lemma {:induction false} MentionsBounded(plan: seq<PlanEntry>, i: nat, gateId: Id)
    requires i < |plan|
    ensures multiset(plan[i].emits)[gateId] <= |Targets(FlatMap(plan, PerEntryEmissions), gateId)|
    decreases |plan|
  {
    var front, last := plan[..|plan| - 1], plan[|plan| - 1];
    TargetsConcat(FlatMap(front, PerEntryEmissions), PerEntryEmissions(last), gateId);
    if i < |front| {
      MentionsBounded(front, i, gateId);
    } else {
      EntryTargets(last.emits, last.item, gateId);
      assert EntryEmissions(PlanEntry(last.item, [], [], last.emits)) == EntryEmissions(last);
    }
  }

  lemma EmissionsAreSound(p: Packet, gateId: Id)
    requires EmissionFindings(p) == []
    ensures gateId in EmittedGates(p) <==> gateId in GateIds(p)
    ensures gateId in EmittedGates(p) ==>
              |Targets(Emissions(p), gateId)| == 1 &&
              (gateId in GateById(p) ==> GateById(p)[gateId].authorityItem == Targets(Emissions(p), gateId)[0])
  {
    var emitted, declared := Elements(EmittedGates(p)), Elements(GateIds(p));
    FourEmpty(When(emitted - declared != {}, EmitsUnknownGates), When(declared - emitted != {}, GatesNotEmitted),
              FlatMap(EmittedGates(p), PerEmittedGate(p)), FlatMap(Dedup(OwnerItems(p)), PerSecurityItem(p)));
    if gateId in emitted {
      NothingMissing(emitted, declared, gateId);
      FlatMapEmpty(EmittedGates(p), PerEmittedGate(p));
      assert PerEmittedGate(p)(gateId) == [];
    }
    if gateId in declared {
      NothingMissing(declared, emitted, gateId);
    }
  }

  /** The gate is emitted once, by the authority item under its identifier. */
  ghost predicate EmittedOnce(p: Packet, gateId: Id) {
    gateId in GateById(p) && Targets(Emissions(p), gateId) == [GateById(p)[gateId].authorityItem]
  }

  ghost predicate EmitsProperly(p: Packet) {
    && (forall entry, gateId :: entry in p.plan && gateId in entry.emits ==> gateId in GateIds(p))
    && (forall gateId :: gateId in GateIds(p) ==> EmittedOnce(p, gateId))
    && (forall item :: item in OwnerItems(p) && Get(OwnerOf(p), item) == Some(SECURITY_OWNER) ==>
          EmittedBy(p, item) != [])
  }

  lemma NoEmissionFindings(p: Packet)
    requires EmissionFindings(p) == []
    ensures EmitsProperly(p)
  {
    forall entry, gateId | entry in p.plan && gateId in entry.emits
      ensures gateId in GateIds(p)
    {
      EmissionsAreSound(p, gateId);
      EmittedMembers(p, gateId);
    }
    forall gateId | gateId in GateIds(p)
      ensures EmittedOnce(p, gateId)
    {
      EmissionsAreSound(p, gateId);
      GateLookup(p, gateId);
    }
    SecurityItemsSpeak(p);
  }

  lemma SecurityItemsSpeak(p: Packet)
    requires EmissionFindings(p) == []
    ensures forall item :: item in OwnerItems(p) && Get(OwnerOf(p), item) == Some(SECURITY_OWNER) ==>
              EmittedBy(p, item) != []
  {
    FlatMapEmpty(Dedup(OwnerItems(p)), PerSecurityItem(p));
    forall item | item in OwnerItems(p) && Get(OwnerOf(p), item) == Some(SECURITY_OWNER)
      ensures EmittedBy(p, item) != []
    {
      assert PerSecurityItem(p)(item) == [];
    }
  }

  lemma ProperGates(p: Packet)
    requires EmitsProperly(p)
    ensures forall gateId :: gateId in EmittedGates(p) <==> gateId in GateIds(p)
    ensures FlatMap(EmittedGates(p), PerEmittedGate(p)) == []
  {
    forall gateId
      ensures gateId in EmittedGates(p) <==> gateId in GateIds(p)
    {
      EmittedMembers(p, gateId);
      if gateId in GateIds(p) {
        assert EmittedOnce(p, gateId);
        var item := GateById(p)[gateId].authorityItem;
        TargetsMembers(Emissions(p), gateId, item);
        EmissionMembers(p, gateId, item);
      }
    }
    forall gateId | gateId in EmittedGates(p)
      ensures PerEmittedGate(p)(gateId) == []
    {
      assert EmittedOnce(p, gateId);
    }
    FlatMapNothing(EmittedGates(p), PerEmittedGate(p));
  }

  /**
   There is no emission finding exactly when every emitted gate is declared, every declared gate is
   emitted once by its authority item, and every security-owned item emits one.
   */
  lemma EmissionsExactly(p: Packet)
    ensures EmissionFindings(p) == [] <==> EmitsProperly(p)
  {
    if EmissionFindings(p) == [] {
      NoEmissionFindings(p);
    }
    if EmitsProperly(p) {
      ProperGates(p);
      assert Elements(EmittedGates(p)) == Elements(GateIds(p));
      FlatMapNothing(Dedup(OwnerItems(p)), PerSecurityItem(p));
    }
  }

  lemma PlanEntryOfItem(p: Packet, a: PlanEntry, b: PlanEntry)
    requires PlanFindings(p) == [] && a in p.plan && b in p.plan && a.item == b.item
    ensures a == b
  {
    var i :| 0 <= i < |p.plan| && p.plan[i] == a;
    var j :| 0 <= j < |p.plan| && p.plan[j] == b;
    ElementCount(PlanItems(p));
    assert PlanItems(p)[i] == PlanItems(p)[j];
  }

  lemma GateOfId(p: Packet, g: Gate)
    requires GateFindings(p) == [] && g in p.gates
    ensures g.id in GateById(p) && GateById(p)[g.id] == g && g.id in GateIds(p)
  {
    var i :| 0 <= i < |p.gates| && p.gates[i] == g;
    ElementCount(GateIds(p));
    assert GateIds(p)[i] == g.id;
    assert forall j :: 0 <= j < |p.gates| ==> GatePairs(p)[j].0 == GateIds(p)[j];
    LastWinsDistinct(GatePairs(p), i);
  }

  lemma SoleEmission(p: Packet, g: Gate)
    requires GateFindings(p) == [] && EmissionFindings(p) == [] && g in p.gates
    ensures Targets(Emissions(p), g.id) == [g.authorityItem]
    ensures exists entry :: entry in p.plan && g.id in entry.emits
  {
    GateOfId(p, g);
    EmissionsAreSound(p, g.id);
    EmittedMembers(p, g.id);
  }

  lemma EmitterOf(p: Packet, gateId: Id, item: Id, entry: PlanEntry)
    requires Targets(Emissions(p), gateId) == [item] && entry in p.plan && gateId in entry.emits
    ensures entry.item == item && multiset(entry.emits)[gateId] == 1
  {
    EmissionMembers(p, gateId, entry.item);
    TargetsMembers(Emissions(p), gateId, entry.item);
    var i :| 0 <= i < |p.plan| && p.plan[i] == entry;
    MentionsBounded(p.plan, i, gateId);
  }

  /**
   In an accepted packet a plan entry emits a declared gate exactly when it is the entry of the gate's
   authority item, and that entry exists and names the gate once.
   */
  lemma AuthorityEmitsGate(p: Packet, g: Gate)
    requires Accepted(p) && g in p.gates
    ensures forall entry :: entry in p.plan ==> (g.id in entry.emits <==> entry.item == g.authorityItem)
    ensures exists entry :: entry in p.plan && entry.item == g.authorityItem && multiset(entry.emits)[g.id] == 1
  {
    NoFindings(p);
    SoleEmission(p, g);
    var emitter :| emitter in p.plan && g.id in emitter.emits;
    EmitterOf(p, g.id, g.authorityItem, emitter);
    forall entry | entry in p.plan
      ensures g.id in entry.emits <==> entry.item == g.authorityItem
    {
      if g.id in entry.emits {
        EmitterOf(p, g.id, g.authorityItem, entry);
      }
      if entry.item == g.authorityItem {
        PlanEntryOfItem(p, entry, emitter);
      }
    }
  }

  lemma OwnersKeys(p: Packet, item: Id)
    ensures item in OwnerOf(p) ==> item in OwnerItems(p)
  {
    var pairs := seq(|p.owners|, i requires 0 <= i < |p.owners| => (p.owners[i].item, p.owners[i].owner));
    LastWinsKeys(pairs, item);
    if i :| 0 <= i < |pairs| && pairs[i].0 == item {
      assert OwnerItems(p)[i] == item;
    }
  }

  lemma EmittedIsDeclared(p: Packet, entry: PlanEntry, gateId: Id) returns (g: Gate)
    requires EmissionFindings(p) == [] && entry in p.plan && gateId in entry.emits
    ensures g in p.gates && g.id == gateId
  {
    EmittedMembers(p, gateId);
    EmissionsAreSound(p, gateId);
    GateLookup(p, gateId);
    g := GateById(p)[gateId];
  }

  lemma SecurityItemSpeaks(p: Packet, item: Id) returns (entry: PlanEntry)
    requires EmissionFindings(p) == [] && Get(OwnerOf(p), item) == Some(SECURITY_OWNER)
    ensures entry in p.plan && entry.item == item && entry.emits != []
  {
    OwnersKeys(p, item);
    FlatMapEmpty(Dedup(OwnerItems(p)), PerSecurityItem(p));
    assert PerSecurityItem(p)(item) == [];
    PlanLookup(p, item);
    entry := PlanOf(p)[item];
  }

  /** Every security-owned work item of an accepted packet is the authority of a declared gate, and emits it. */
  lemma SecurityItemsEmit(p: Packet, item: Id) returns (entry: PlanEntry, g: Gate)
    requires Accepted(p) && Get(OwnerOf(p), item) == Some(SECURITY_OWNER)
    ensures entry in p.plan && entry.item == item && g in p.gates && g.authorityItem == item && g.id in entry.emits
  {
    NoFindings(p);
    entry := SecurityItemSpeaks(p, item);
    g := EmittedIsDeclared(p, entry, entry.emits[0]);
    AuthorityEmitsGate(p, g);
  }

  // ----- runtime activation chains

  lemma ChainGateIsDeclared(p: Packet, c: Chain)
    requires Elements(ChainGates(p)) == RuntimeGates(p) && c in p.chains
    ensures c.gate in GateById(p)
  {
    var i :| 0 <= i < |p.chains| && p.chains[i] == c;
    assert ChainGates(p)[i] == c.gate && c.gate in Elements(ChainGates(p));
    assert c.gate in RuntimeGates(p);
    var g :| g in p.gates && g.blocked == BeforeRuntimeActivation && g.id == c.gate;
    var j :| 0 <= j < |p.gates| && p.gates[j] == g;
    assert GateIds(p)[j] == c.gate;
    GateLookup(p, c.gate);
  }

  /** An accepted chain's gate is declared, and the chain produces no finding. */
  lemma ChainIsSound(p: Packet, c: Chain)
    requires ChainFindings(p) == [] && c in p.chains
    ensures c.gate in GateById(p) && ChainOf(p, c, GateById(p)[c.gate]) == []
  {
    FourEmpty(When(|ChainIds(p)| != |Elements(ChainIds(p))|, ChainIdsRepeat),
              When(|ChainGates(p)| != |Elements(ChainGates(p))|, ChainGatesRepeat),
              When(Elements(ChainGates(p)) != RuntimeGates(p), ChainGateCoverage),
              FlatMap(p.chains, PerChain(p)));
    ChainGateIsDeclared(p, c);
    FlatMapEmpty(p.chains, PerChain(p));
    assert PerChain(p)(c) == [];
  }

  /** An accepted source-changing chain has an activation unit, which gives no finding. */
  lemma ChangingChain(p: Packet, c: Chain, g: Gate)
    requires ChainOf(p, c, g) == [] && c.posture == OwnerSourceChangeRequired
    ensures ChainBasics(p, c, g) == []
    ensures c.activationUnit.Some? && c.activationUnit.value in UnitById(p)
    ensures ActivationFindings(p, c, g, UnitById(p)[c.activationUnit.value]) == []
  {
  }

  lemma AuthorityHasUnit(p: Packet, g: Gate)
    requires UnitFindings(p) == [] && GateFindings(p) == [] && g in p.gates
    ensures g.authorityItem in UnitOf(p)
  {
    FlatMapEmpty(p.gates, PerGate(p));
    assert PerGate(p)(g) == [];
    EveryItemHasUnit(p, g.authorityItem);
  }

  /** The authority unit of an accepted source-changing chain strictly precedes its activation unit. */
  lemma AuthorityBeforeActivation(p: Packet, c: Chain, order: seq<Id>)
    requires Accepted(p) && p.version == 6 && c in p.chains && c.posture == OwnerSourceChangeRequired
    requires Lists(Elements(UnitIds(p)), order) && Respects(order, CombinedUnitEdges(p))
    ensures c.gate in GateById(p) && GateById(p)[c.gate].authorityItem in UnitOf(p)
    ensures c.activationUnit.Some? && c.activationUnit.value in UnitById(p)
    ensures UnitById(p)[c.activationUnit.value].covered != [] ==>
              Precedes(order, UnitOf(p)[GateById(p)[c.gate].authorityItem], c.activationUnit.value)
  {
    NoFindings(p);
    ChainIsSound(p, c);
    GateLookup(p, c.gate);
    var g := GateById(p)[c.gate];
    AuthorityHasUnit(p, g);
    ChangingChain(p, c, g);
    var activation := UnitById(p)[c.activationUnit.value];
    UnitLookup(p, c.activationUnit.value);
    if activation.covered != [] {
      ActivationIsSound(p, c, g, activation);
      WaitingCrossesUnits(p, g, activation);
      var e := Edge(UnitOf(p)[g.authorityItem], activation.id);
      assert Precedes(order, e.source, e.target);
    }
  }

  /** What an accepted activation unit satisfies. */
  lemma ActivationIsSound(p: Packet, c: Chain, g: Gate, activation: LandingUnit)
    requires ActivationFindings(p, c, g, activation) == []
    ensures activation.sourceBacked && !AuthorityUnordered(p, g, activation.id)
    ensures forall item :: item in activation.covered ==> g.authorityItem in PrerequisitesOf(p, item)
    ensures forall unitId :: unitId in c.commissioning ==> !SourceUnordered(p, activation.id, unitId)
  {
    SixEmpty(When(!activation.sourceBacked, ActivationNotSource(c.id)),
             When(activation.owner != c.sourceOwner, ActivationOwner(c.id)),
             When(activation.id in Elements(c.commissioning), ActivationIsCommissioning(c.id)),
             if AuthorityUnordered(p, g, activation.id) then [AuthorityAfterActivation(c.id)] else [],
             FlatMap(activation.covered, PerActivationItem(p, c, g)),
             FlatMap(c.commissioning, PerCommissionedAfter(p, c, activation.id)));
    FlatMapEmpty(activation.covered, PerActivationItem(p, c, g));
    forall item | item in activation.covered
      ensures g.authorityItem in PrerequisitesOf(p, item)
    {
      assert PerActivationItem(p, c, g)(item) == [];
    }
    FlatMapEmpty(c.commissioning, PerCommissionedAfter(p, c, activation.id));
    forall unitId | unitId in c.commissioning
      ensures !SourceUnordered(p, activation.id, unitId)
    {
      assert PerCommissionedAfter(p, c, activation.id)(unitId) == [];
    }
  }

  /** The source landing graph of an accepted packet is acyclic. */
  lemma SourceOrderAcyclic(p: Packet)
    requires UnitFindings(p) == []
    ensures !HasCycle(SourceOrder(p))
  {
    InsideTwice(Elements(p.sourceNodes), p.sourceEdges);
  }

  /** Were authority and activation one unit, its source node would have to precede itself. */
  lemma AuthorityIsElsewhere(p: Packet, g: Gate, activation: LandingUnit)
    requires UnitFindings(p) == [] && activation in p.units && activation.sourceBacked
    requires g.authorityItem in UnitOf(p) && !AuthorityUnordered(p, g, activation.id)
    ensures UnitOf(p)[g.authorityItem] != activation.id
  {
    ActivationIsSourceNode(p, activation);
    SourceOrderAcyclic(p);
  }

  lemma WaitingCrossesUnits(p: Packet, g: Gate, activation: LandingUnit)
    requires PlanFindings(p) == [] && UnitFindings(p) == []
    requires activation.sourceBacked && !AuthorityUnordered(p, g, activation.id)
    requires forall item :: item in activation.covered ==> g.authorityItem in PrerequisitesOf(p, item)
    requires activation in p.units && activation.covered != [] && g.authorityItem in UnitOf(p)
    ensures Edge(UnitOf(p)[g.authorityItem], activation.id) in CombinedUnitEdges(p)
  {
    var item := activation.covered[0];
    assert g.authorityItem in PrerequisitesOf(p, item);
    PlanLookup(p, item);
    CrossUnitIsEdge(p, PlanOf(p)[item], g.authorityItem);
    AssignedUnit(p, activation, item);
    AuthorityIsElsewhere(p, g, activation);
  }

  lemma ActivationIsSourceNode(p: Packet, u: LandingUnit)
    requires UnitFindings(p) == [] && u in p.units && u.sourceBacked
    ensures u.id in Elements(p.sourceNodes)
  {
    assert u.id in SourceBacked(p);
  }

  lemma {:induction false} InsideTwice(nodes: set<Id>, edges: seq<Edge>)
    ensures Inside(nodes, Inside(nodes, edges)) == Inside(nodes, edges)
    decreases |edges|
  {
    if edges != [] {
      var front, last := Inside(nodes, edges[..|edges| - 1]), edges[|edges| - 1];
      InsideTwice(nodes, edges[..|edges| - 1]);
      assert (front + [last])[..|front|] == front;
    }
  }

  /** The activation unit of an accepted source-changing chain strictly precedes every commissioning unit. */
  lemma ActivationBeforeCommissioning(p: Packet, c: Chain, order: seq<Id>, unitId: Id)
    requires Accepted(p) && p.version == 6 && c in p.chains && c.posture == OwnerSourceChangeRequired
    requires Lists(Elements(UnitIds(p)), order) && Respects(order, CombinedUnitEdges(p))
    requires unitId in c.commissioning
    ensures c.activationUnit.Some? && Precedes(order, c.activationUnit.value, unitId)
  {
    NoFindings(p);
    ChainIsSound(p, c);
    GateLookup(p, c.gate);
    var g := GateById(p)[c.gate];
    ChangingChain(p, c, g);
    var activation := UnitById(p)[c.activationUnit.value];
    UnitLookup(p, c.activationUnit.value);
    ActivationIsSourceNode(p, activation);
    CommissioningIsSourceNode(p, c, g, unitId);
    ActivationIsSound(p, c, g, activation);
    assert Reaches(SourceOrder(p), activation.id, unitId);
    RespectsSourceOrder(p, order);
    ReachesRespectsOrder(Elements(UnitIds(p)), SourceOrder(p), order, activation.id, unitId);
  }

  lemma CommissioningIsSourceNode(p: Packet, c: Chain, g: Gate, unitId: Id)
    requires UnitFindings(p) == [] && GateFindings(p) == [] && ChainBasics(p, c, g) == []
    requires g in p.gates && unitId in c.commissioning
    ensures unitId in Elements(p.sourceNodes)
  {
    FlatMapEmpty(p.gates, PerGate(p));
    assert PerGate(p)(g) == [];
    assert unitId in Elements(c.commissioning);
    assert unitId in Elements(g.affected);
    assert unitId !in Elements(g.affected) - Elements(UnitIds(p));
    UnitLookup(p, unitId);
    FlatMapEmpty(c.commissioning, PerCommissioningUnit(p, c));
    assert PerCommissioningUnit(p, c)(unitId) == [];
    ActivationIsSourceNode(p, UnitById(p)[unitId]);
  }

  // ----- conformance

  /**
   The conformance check rejects exactly the applicable items that are neither owner items,
   nor scheduled after one, nor a parent above either.
   */
  lemma ConformanceIsExact(p: Packet, id: Id, item: Id)
    ensures CaseUnordered(id, item) in ConformanceFindings(p) <==>
            exists c :: c in p.cases && c.id == id && c.ownerUnit in UnitById(p) && item in c.appliesTo &&
                        !CausallyOrdered(p, UnitById(p)[c.ownerUnit].covered, item)
  {
    var finding := CaseUnordered(id, item);
    FlatMapMembers(p.cases, PerCase(p), finding);
    forall c | c in p.cases
      ensures finding in PerCase(p)(c) <==>
              c.id == id && c.ownerUnit in UnitById(p) && item in c.appliesTo &&
              !CausallyOrdered(p, UnitById(p)[c.ownerUnit].covered, item)
    {
      if c.ownerUnit in UnitById(p) {
        var ownerItems := UnitById(p)[c.ownerUnit].covered;
        FlatMapMembers(c.appliesTo, PerApplicable(p, c, ownerItems), finding);
        if item in c.appliesTo {
          var i :| 0 <= i < |c.appliesTo| && c.appliesTo[i] == item;
          assert finding in PerApplicable(p, c, ownerItems)(c.appliesTo[i]) <==>
                 c.id == id && !CausallyOrdered(p, ownerItems, item);
        }
      }
    }
  }
}
