/** Human gates and their emissions: the sections that say which gate waits for whom. */
module ArchitectureGates {
  import opened Common
  import opened Graphs
  import opened ArchitecturePacket
  import opened ArchitectureConditions
  import opened ArchitectureLookups
  import opened ArchitectureExactness
  import opened ArchitectureTheorems

  // ----- human gates

  lemma GatesRepeatExactly(p: Packet)
    ensures |GateIds(p)| != |Elements(GateIds(p))| <==> GuardsTwice(p)
  {
    RepeatsExactly(GateIds(p));
    assert forall i :: 0 <= i < |p.gates| ==> GateIds(p)[i] == p.gates[i].id;
  }

  lemma OwnedElsewhereExactly(p: Packet, item: Id, owner: Id)
    ensures item in OwnerOf(p) && owner != OwnerOf(p)[item] <==> OwnedElsewhere(p, item, owner)
  {
    if item in OwnerOf(p) {
      OwnersExactly(p, item, OwnerOf(p)[item]);
    }
    if other :| Owns(p, other, item) && other != owner {
      OwnersExactly(p, item, other);
    }
  }

  lemma AwaitsExactly(p: Packet, item: Id, before: Id)
    ensures before in PrerequisitesOf(p, item) <==> Awaits(p, item, before)
  {
    if item in PlanOf(p) {
      PlansExactly(p, item, PlanOf(p)[item]);
    }
    if entry :| Planned(p, item, entry) && Requires(entry, before) {
      PlansExactly(p, item, entry);
    }
  }

  lemma AffectedExactly(p: Packet, g: Gate)
    ensures Elements(g.affected) - Elements(UnitIds(p)) != {} <==> AffectsUnknown(p, g)
    ensures Elements(g.affected) - SourceBacked(p) != {} <==> AffectsNonSource(p, g)
  {
    MissingExactly(Elements(g.affected), Elements(UnitIds(p)));
    MissingExactly(Elements(g.affected), SourceBacked(p));
    forall unitId
      ensures unitId in Elements(UnitIds(p)) <==> IsUnit(p, unitId)
      ensures unitId in SourceBacked(p) <==> IsSource(p, unitId)
    {
      UnitKnown(p, unitId);
    }
    if unitId :| unitId in g.affected && !IsUnit(p, unitId) {
      assert unitId in Elements(g.affected);
    }
    if unitId :| unitId in g.affected && !IsSource(p, unitId) {
      assert unitId in Elements(g.affected);
    }
  }

  lemma EvidenceExactly(p: Packet, g: Gate)
    ensures Elements(g.evidenceItems) - Covered(p) != {} <==> EvidenceUnknown(p, g)
    ensures Elements(g.evidenceItems) - PrerequisitesOf(p, g.authorityItem) != {} <==> EvidenceAbsent(p, g)
  {
    MissingExactly(Elements(g.evidenceItems), Covered(p));
    MissingExactly(Elements(g.evidenceItems), PrerequisitesOf(p, g.authorityItem));
    forall item
      ensures item in PrerequisitesOf(p, g.authorityItem) <==> Awaits(p, g.authorityItem, item)
    {
      AwaitsExactly(p, g.authorityItem, item);
    }
    if item :| item in g.evidenceItems && item !in p.covered {
      assert item in Elements(g.evidenceItems);
    }
    if item :| item in g.evidenceItems && !Awaits(p, g.authorityItem, item) {
      assert item in Elements(g.evidenceItems);
    }
  }

  lemma GateParts(p: Packet, g: Gate, f: Finding)
    ensures f in PerGate(p)(g) <==>
            || (f == GateAuthorityUnknown(g.id) && g.authorityItem !in Covered(p))
            || (f == GateOwnerMismatch(g.id)
                && g.authorityItem in OwnerOf(p) && g.authorityOwner != OwnerOf(p)[g.authorityItem])
            || (f == GateUnitsUnknown(g.id) && Elements(g.affected) - Elements(UnitIds(p)) != {})
            || (f == GateBlocksNonSource(g.id)
                && g.blocked == BeforeSourceMerge && Elements(g.affected) - SourceBacked(p) != {})
            || (f == GateEvidenceUnknown(g.id) && Elements(g.evidenceItems) - Covered(p) != {})
            || (f == GateEvidenceAbsent(g.id)
                && Elements(g.evidenceItems) - PrerequisitesOf(p, g.authorityItem) != {})
  {
    SixWhens(g.authorityItem !in Covered(p),
             g.authorityItem in OwnerOf(p) && g.authorityOwner != OwnerOf(p)[g.authorityItem],
             Elements(g.affected) - Elements(UnitIds(p)) != {},
             g.blocked == BeforeSourceMerge && Elements(g.affected) - SourceBacked(p) != {},
             Elements(g.evidenceItems) - Covered(p) != {},
             Elements(g.evidenceItems) - PrerequisitesOf(p, g.authorityItem) != {},
             GateAuthorityUnknown(g.id), GateOwnerMismatch(g.id), GateUnitsUnknown(g.id), GateBlocksNonSource(g.id),
             GateEvidenceUnknown(g.id), GateEvidenceAbsent(g.id), f);
  }

  lemma GateExactly(p: Packet, g: Gate, f: Finding)
    ensures f in PerGate(p)(g) <==> GateOwes(p, g, f)
  {
    GateParts(p, g, f);
    OwnedElsewhereExactly(p, g.authorityItem, g.authorityOwner);
    AffectedExactly(p, g);
    EvidenceExactly(p, g);
  }

  lemma EachGateExactly(p: Packet, f: Finding)
    ensures f in FlatMap(p.gates, PerGate(p)) <==> SomeGateOwes(p, f)
  {
    Among(p.gates, PerGate(p), f);
    if g :| g in p.gates && f in PerGate(p)(g) {
      GateExactly(p, g, f);
    }
    if g :| g in p.gates && GateOwes(p, g, f) {
      GateExactly(p, g, f);
    }
  }

  /** An edge between the units two items are placed in. */
  lemma UnitEdgeExactly(p: Packet, before: Id, after: Option<Id>, e: Edge)
    ensures e in UnitEdge(p, Get(UnitOf(p), before), after) <==>
            Placed(p, before, e.source) && after == Some(e.target) && IsUnit(p, e.source) && IsUnit(p, e.target)
            && e.source != e.target
  {
    PlacesExactly(p, before, e.source);
    UnitKnown(p, e.source);
    UnitKnown(p, e.target);
  }

  lemma CrossExactly(p: Packet, e: Edge)
    ensures e in CrossUnitEdges(p) <==>
            IsUnit(p, e.source) && IsUnit(p, e.target) && e.source != e.target && CrossesUnits(p, e)
  {
    Among(ScheduleEdges(p), PerScheduleEdge(p), e);
    if w :| w in ScheduleEdges(p) && e in PerScheduleEdge(p)(w) {
      ScheduleMembers(p, w);
      UnitEdgeExactly(p, w.source, Get(UnitOf(p), w.target), e);
      PlacesExactly(p, w.target, e.target);
    }
    if IsUnit(p, e.source) && IsUnit(p, e.target) && e.source != e.target && CrossesUnits(p, e) {
      var w :| w in ScheduleSteps(p) && Placed(p, w.source, e.source) && Placed(p, w.target, e.target);
      ScheduleMembers(p, w);
      UnitEdgeExactly(p, w.source, Get(UnitOf(p), w.target), e);
      PlacesExactly(p, w.target, e.target);
      assert e in PerScheduleEdge(p)(w);
    }
  }

  lemma EarlyExactly(p: Packet, e: Edge)
    ensures e in EarlyGateEdges(p) <==>
            IsUnit(p, e.source) && IsUnit(p, e.target) && e.source != e.target && HeldByGate(p, e)
  {
    Among(p.gates, PerEarlyGate(p), e);
    if g :| g in p.gates && e in PerEarlyGate(p)(g) {
      Among(g.affected, PerAffectedUnit(p, g), e);
      var unitId :| unitId in g.affected && e in PerAffectedUnit(p, g)(unitId);
      UnitEdgeExactly(p, g.authorityItem, Some(unitId), e);
    }
    if IsUnit(p, e.source) && IsUnit(p, e.target) && e.source != e.target && HeldByGate(p, e) {
      var g :| g in p.gates && Early(g) && Placed(p, g.authorityItem, e.source) && e.target in g.affected;
      UnitEdgeExactly(p, g.authorityItem, Some(e.target), e);
      assert e in PerAffectedUnit(p, g)(e.target);
      Among(g.affected, PerAffectedUnit(p, g), e);
      assert e in PerEarlyGate(p)(g);
    }
  }

  lemma CombinedCycles(p: Packet)
    ensures HasCycle(Inside(Elements(UnitIds(p)), CombinedUnitEdges(p))) <==>
            !Orderable(Elements(UnitIds(p)), UnitSteps(p))
  {
    forall e
      ensures e in UnitSteps(p) <==> e in CombinedUnitEdges(p)
    {
      LandingMembers(p);
      CrossExactly(p, e);
      EarlyExactly(p, e);
    }
    OrderableExactly(Elements(UnitIds(p)), UnitSteps(p), CombinedUnitEdges(p));
  }

  lemma HumanGatesExactly(p: Packet, f: Finding)
    ensures f in GateFindings(p) <==> GateDue(p, f)
  {
    GatesRepeatExactly(p);
    EachGateExactly(p, f);
    CombinedCycles(p);
  }

  // ----- gate emissions

  lemma {:induction false} MentionsAreJoint(plan: seq<PlanEntry>, gateId: Id)
    ensures |Targets(FlatMap(plan, PerEntryEmissions), gateId)| == multiset(Joint(Mentions(plan)))[gateId]
    decreases |plan|
  {
    if plan != [] {
      var front, last := plan[..|plan| - 1], plan[|plan| - 1];
      MentionsAreJoint(front, gateId);
      TargetsConcat(FlatMap(front, PerEntryEmissions), PerEntryEmissions(last), gateId);
      EntryTargets(last.emits, last.item, gateId);
      assert EntryEmissions(PlanEntry(last.item, [], [], last.emits)) == EntryEmissions(last);
      assert Mentions(plan)[..|plan| - 1] == Mentions(front);
    }
  }

  lemma MentionedExactly(p: Packet, gateId: Id)
    ensures |Targets(Emissions(p), gateId)| >= 2 <==> Twice(Mentions(p.plan), gateId)
    ensures |Targets(Emissions(p), gateId)| >= 1 <==> Emitted(p, gateId)
    ensures gateId in EmittedGates(p) <==> Emitted(p, gateId)
  {
    MentionsAreJoint(p.plan, gateId);
    TwiceExactly(Mentions(p.plan), gateId);
    EmittedMembers(p, gateId);
    JointMembers(Mentions(p.plan), gateId);
    if entry :| entry in p.plan && gateId in entry.emits {
      var i :| 0 <= i < |p.plan| && p.plan[i] == entry;
      assert gateId in Mentions(p.plan)[i];
    }
  }

  lemma EmittedGateExactly(p: Packet, gateId: Id, f: Finding)
    requires Emitted(p, gateId)
    ensures f in PerEmittedGate(p)(gateId) <==>
            || (f == EmittedNotOnce(gateId) && Twice(Mentions(p.plan), gateId))
            || (f == EmittedByOther(gateId) && EmittedElsewhere(p, gateId))
  {
    MentionedExactly(p, gateId);
    if !Twice(Mentions(p.plan), gateId) {
      SoleEmitter(p, gateId);
    }
  }

  lemma SoleEmitter(p: Packet, gateId: Id)
    requires |Targets(Emissions(p), gateId)| == 1
    ensures (exists entry, g :: entry in p.plan && gateId in entry.emits && Guarded(p, gateId, g)
                                && g.authorityItem != entry.item) <==>
            gateId in GateById(p) && GateById(p)[gateId].authorityItem != Targets(Emissions(p), gateId)[0]
  {
    var item := Targets(Emissions(p), gateId)[0];
    forall entry | entry in p.plan && gateId in entry.emits
      ensures entry.item == item
    {
      EmissionMembers(p, gateId, entry.item);
      TargetsMembers(Emissions(p), gateId, entry.item);
    }
    TargetsMembers(Emissions(p), gateId, item);
    EmissionMembers(p, gateId, item);
    if gateId in GateById(p) {
      GatesExactly(p, gateId, GateById(p)[gateId]);
    }
    if g :| Guarded(p, gateId, g) {
      GatesExactly(p, gateId, g);
    }
  }

  lemma EmittedGatesExactly(p: Packet, f: Finding)
    ensures f in FlatMap(EmittedGates(p), PerEmittedGate(p)) <==>
            || (f.EmittedNotOnce? && Twice(Mentions(p.plan), f.id))
            || (f.EmittedByOther? && EmittedElsewhere(p, f.id))
  {
    Among(EmittedGates(p), PerEmittedGate(p), f);
    if gateId :| gateId in EmittedGates(p) && f in PerEmittedGate(p)(gateId) {
      MentionedExactly(p, gateId);
      EmittedGateExactly(p, gateId, f);
    }
    if (f.EmittedNotOnce? && Twice(Mentions(p.plan), f.id)) || (f.EmittedByOther? && EmittedElsewhere(p, f.id)) {
      MentionedExactly(p, f.id);
      EmittedGateExactly(p, f.id, f);
    }
  }

  lemma SilenceExactly(p: Packet, item: Id)
    ensures EmittedBy(p, item) == [] <==> SaysNothing(p, item)
  {
    if item in PlanOf(p) {
      PlansExactly(p, item, PlanOf(p)[item]);
    }
    forall entry | Planned(p, item, entry)
      ensures item in PlanOf(p) && PlanOf(p)[item] == entry
    {
      PlansExactly(p, item, entry);
    }
  }

  lemma SecurityExactly(p: Packet, f: Finding)
    ensures f in FlatMap(Dedup(OwnerItems(p)), PerSecurityItem(p)) <==>
            f.SecurityItemSilent? && Owns(p, SECURITY_OWNER, f.item) && SaysNothing(p, f.item)
  {
    Among(Dedup(OwnerItems(p)), PerSecurityItem(p), f);
    if f.SecurityItemSilent? {
      OwnersExactly(p, f.item, SECURITY_OWNER);
      OwnersKeys(p, f.item);
      SilenceExactly(p, f.item);
      assert f in PerSecurityItem(p)(f.item) <==>
             Get(OwnerOf(p), f.item) == Some(SECURITY_OWNER) && EmittedBy(p, f.item) == [];
    }
  }

  lemma GateKnown(p: Packet, gateId: Id)
    ensures gateId in GateIds(p) <==> IsGate(p, gateId)
  {
    if g :| g in p.gates && g.id == gateId {
      var i :| 0 <= i < |p.gates| && p.gates[i] == g;
      assert GateIds(p)[i] == gateId;
    }
  }

  lemma DeclaredEmissions(p: Packet)
    ensures Elements(EmittedGates(p)) - Elements(GateIds(p)) != {} <==> EmitsUndeclared(p)
    ensures Elements(GateIds(p)) - Elements(EmittedGates(p)) != {} <==> exists g :: g in p.gates && !Emitted(p, g.id)
  {
    var emitted, declared := Elements(EmittedGates(p)), Elements(GateIds(p));
    MissingExactly(emitted, declared);
    MissingExactly(declared, emitted);
    forall gateId
      ensures gateId in emitted <==> Emitted(p, gateId)
      ensures gateId in declared <==> IsGate(p, gateId)
    {
      MentionedExactly(p, gateId);
      GateKnown(p, gateId);
    }
    if entry, gateId :| entry in p.plan && gateId in entry.emits && !IsGate(p, gateId) {
      assert gateId in emitted;
    }
    if g :| g in p.gates && !Emitted(p, g.id) {
      assert g.id in declared;
    }
  }

  lemma EmissionParts(p: Packet, f: Finding)
    ensures f in EmissionFindings(p) <==>
            || (f == EmitsUnknownGates && Elements(EmittedGates(p)) - Elements(GateIds(p)) != {})
            || (f == GatesNotEmitted && Elements(GateIds(p)) - Elements(EmittedGates(p)) != {})
            || f in FlatMap(EmittedGates(p), PerEmittedGate(p))
            || f in FlatMap(Dedup(OwnerItems(p)), PerSecurityItem(p))
  {
    InFour(When(Elements(EmittedGates(p)) - Elements(GateIds(p)) != {}, EmitsUnknownGates),
           When(Elements(GateIds(p)) - Elements(EmittedGates(p)) != {}, GatesNotEmitted),
           FlatMap(EmittedGates(p), PerEmittedGate(p)), FlatMap(Dedup(OwnerItems(p)), PerSecurityItem(p)), f);
  }

  lemma GateEmissionsExactly(p: Packet, f: Finding)
    ensures f in EmissionFindings(p) <==> EmissionDue(p, f)
  {
    EmissionParts(p, f);
    DeclaredEmissions(p);
    EmittedGatesExactly(p, f);
    SecurityExactly(p, f);
  }
}
