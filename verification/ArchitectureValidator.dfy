/**
 The semantic validator for architecture packets: the findings of each section, collected while its
 worklist checks and parent walks run. Its result is exactly `ArchitectureFindings`, each finding once,
 in the order of first occurrence.
 */
module ArchitectureValidator {
  import opened Common
  import opened Graphs
  import opened ArchitecturePacket
  import opened ParentChains

  /** Appends what `check` finds at each element. */
  method Collect<T>(xs: seq<T>, check: T -> seq<Finding>, errors0: seq<Finding>) returns (errors: seq<Finding>)
    ensures errors == errors0 + FlatMap(xs, check)
  {
    errors := errors0;
    for i := 0 to |xs|
      invariant errors == errors0 + FlatMap(xs[..i], check)
    {
      FlatMapSnoc(xs, check, i);
      errors := errors + check(xs[i]);
    }
    assert xs[..|xs|] == xs;
  }

  method CheckAcyclic(nodes: set<Id>, edges: seq<Edge>, finding: Finding, errors0: seq<Finding>)
    returns (errors: seq<Finding>)
    ensures errors == errors0 + (if HasCycle(Inside(nodes, edges)) then [finding] else [])
  {
    var acyclic := GraphIsAcyclic(nodes, edges);
    errors := if acyclic then errors0 else errors0 + [finding];
  }

  method CheckParentWalks(p: Packet, errors0: seq<Finding>) returns (errors: seq<Finding>)
    ensures errors == errors0 + FlatMap(Dedup(OwnerItems(p)), PerWalkStart(p))
  {
    errors := errors0;
    var starts := Dedup(OwnerItems(p));
    for i := 0 to |starts|
      invariant errors == errors0 + FlatMap(starts[..i], PerWalkStart(p))
    {
      FlatMapSnoc(starts, PerWalkStart(p), i);
      var repeats := WalkRepeats(ParentOf(p), starts[i]);
      if repeats {
        errors := errors + [ParentCycle];
      }
    }
    assert starts[..|starts|] == starts;
  }

  method CheckBoundaries(p: Packet) returns (errors: seq<Finding>)
    ensures errors == BoundaryFindings(p)
  {
    errors := When(|BoundaryOwners(p)| != |Elements(BoundaryOwners(p))|, BoundariesRepeat);
    if UsesCapabilities(p) {
      var allowed, prohibited := AllowedPairs(p), ProhibitedPairs(p);
      var more := When(PERSIST !in CapabilitiesOf(allowed, CUSTODY_OWNER), PersistenceUnassigned)
                  + When(ORCHESTRATION_CAPABILITIES - CapabilitiesOf(allowed, ORCHESTRATION_OWNER) != {},
                         OrchestrationIncomplete)
                  + When({PERSIST, PROJECT_CONTENT} - CapabilitiesOf(prohibited, ORCHESTRATION_OWNER) != {},
                         OrchestrationUnlimited);
      more := Collect(Dedup(BoundaryOwners(p)), PerBoundaryOwner(p), more);
      errors := errors + more;
    }
  }

  method CheckOwnerMap(p: Packet) returns (errors: seq<Finding>)
    ensures errors == OwnerMapFindings(p)
  {
    var ids := OwnerItems(p);
    errors := When(|ids| != |Elements(ids)|, OwnerMapRepeats)
              + When(Elements(ids) != Covered(p), OwnerMapCoverage)
              + When(ParentOf(p) != map[] && None !in ParentOf(p).Values, NoRoot);
    errors := Collect(Dedup(ids), PerOwnedItem(p), errors);
    errors := CheckParentWalks(p, errors);
  }

  method CheckPlan(p: Packet) returns (errors: seq<Finding>)
    ensures errors == PlanFindings(p)
  {
    var ids := PlanItems(p);
    errors := When(|ids| != |Elements(ids)|, PlanRepeats)
              + When(Elements(ids) != Covered(p), PlanCoverage);
    errors := Collect(p.plan, PerPlanEntry(p), errors);
    errors := CheckAcyclic(Covered(p), StartEdges(p), StartCycle, errors);
    errors := CheckAcyclic(Covered(p), ScheduleEdges(p), ScheduleCycle, errors);
  }

  method CheckUnits(p: Packet) returns (errors: seq<Finding>)
    ensures errors == UnitFindings(p)
  {
    var ids, items := UnitIds(p), AssignedItems(p);
    errors := When(|ids| != |Elements(ids)|, UnitIdsRepeat);
    errors := Collect(p.units, PerUnit(p), errors);
    errors := errors + When(Elements(items) != Covered(p), UnitsCoverage)
              + When(|items| != |Elements(items)|, ItemAssignedTwice)
              + When(Elements(p.sourceNodes) != SourceBacked(p), SourceNodesCoverage);
    errors := Collect(p.sourceEdges, PerSourceEdge(p), errors);
    errors := CheckAcyclic(Elements(p.sourceNodes), SourceOrder(p), SourceCycle, errors);
  }

  /** The path search runs only between declared source nodes. */
  method IsSourceUnordered(p: Packet, before: Id, after: Id) returns (unordered: bool)
    ensures unordered <==> SourceUnordered(p, before, after)
  {
    if before in Elements(p.sourceNodes) && after in Elements(p.sourceNodes) {
      var ordered := GraphHasPath(SourceOrder(p), before, after);
      return !ordered;
    }
    return false;
  }

  method CheckHandoff(p: Packet, h: Handoff) returns (errors: seq<Finding>)
    ensures errors == PerHandoff(p)(h)
  {
    var unordered := IsSourceUnordered(p, h.producerUnit, h.consumerUnit);
    errors := When(h.producer == h.consumer, HandoffSameOwner(h.id))
              + HandoffUnit(p, h, true) + HandoffUnit(p, h, false)
              + HandoffItem(p, h, true) + HandoffItem(p, h, false)
              + When(unordered, HandoffUnordered(h.id));
  }

  method CheckHandoffs(p: Packet) returns (errors: seq<Finding>)
    ensures errors == HandoffFindings(p)
  {
    var each := [];
    for i := 0 to |p.handoffs|
      invariant each == FlatMap(p.handoffs[..i], PerHandoff(p))
    {
      FlatMapSnoc(p.handoffs, PerHandoff(p), i);
      var more := CheckHandoff(p, p.handoffs[i]);
      each := each + more;
    }
    assert p.handoffs[..|p.handoffs|] == p.handoffs;
    var ids := HandoffIds(p);
    errors := When(|ids| != |Elements(ids)|, HandoffIdsRepeat) + each;
  }

  method CheckGates(p: Packet) returns (errors: seq<Finding>)
    ensures errors == GateFindings(p)
  {
    var ids := GateIds(p);
    errors := When(|ids| != |Elements(ids)|, GateIdsRepeat);
    errors := Collect(p.gates, PerGate(p), errors);
    errors := CheckAcyclic(Elements(UnitIds(p)), CombinedUnitEdges(p), CombinedCycle, errors);
  }

  method CheckEmissions(p: Packet) returns (errors: seq<Finding>)
    ensures errors == EmissionFindings(p)
  {
    errors := When(Elements(EmittedGates(p)) - Elements(GateIds(p)) != {}, EmitsUnknownGates)
              + When(Elements(GateIds(p)) - Elements(EmittedGates(p)) != {}, GatesNotEmitted);
    errors := Collect(EmittedGates(p), PerEmittedGate(p), errors);
    errors := Collect(Dedup(OwnerItems(p)), PerSecurityItem(p), errors);
  }

  method IsAuthorityUnordered(p: Packet, g: Gate, after: Id) returns (unordered: bool)
    ensures unordered <==> AuthorityUnordered(p, g, after)
  {
    unordered := false;
    if g.authorityItem in UnitOf(p) {
      unordered := IsSourceUnordered(p, UnitOf(p)[g.authorityItem], after);
    }
  }

  method CheckReadyChain(p: Packet, c: Chain, g: Gate) returns (errors: seq<Finding>)
    ensures errors == FlatMap(c.commissioning, PerReadyUnit(p, c, g))
  {
    errors := [];
    for i := 0 to |c.commissioning|
      invariant errors == FlatMap(c.commissioning[..i], PerReadyUnit(p, c, g))
    {
      FlatMapSnoc(c.commissioning, PerReadyUnit(p, c, g), i);
      var unordered := IsAuthorityUnordered(p, g, c.commissioning[i]);
      if unordered {
        errors := errors + [AuthorityAfterCommissioning(c.id, c.commissioning[i])];
      }
    }
    assert c.commissioning[..|c.commissioning|] == c.commissioning;
  }

  method CheckCommissionedAfter(p: Packet, c: Chain, activation: Id) returns (errors: seq<Finding>)
    ensures errors == FlatMap(c.commissioning, PerCommissionedAfter(p, c, activation))
  {
    errors := [];
    for i := 0 to |c.commissioning|
      invariant errors == FlatMap(c.commissioning[..i], PerCommissionedAfter(p, c, activation))
    {
      FlatMapSnoc(c.commissioning, PerCommissionedAfter(p, c, activation), i);
      var unordered := IsSourceUnordered(p, activation, c.commissioning[i]);
      if unordered {
        errors := errors + [ActivationAfterCommissioning(c.id, c.commissioning[i])];
      }
    }
    assert c.commissioning[..|c.commissioning|] == c.commissioning;
  }

  method CheckActivation(p: Packet, c: Chain, g: Gate, activation: LandingUnit) returns (errors: seq<Finding>)
    ensures errors == ActivationFindings(p, c, g, activation)
  {
    var unordered := IsAuthorityUnordered(p, g, activation.id);
    var waiting := Collect(activation.covered, PerActivationItem(p, c, g), []);
    assert waiting == FlatMap(activation.covered, PerActivationItem(p, c, g));
    var after := CheckCommissionedAfter(p, c, activation.id);
    var late := When(unordered, AuthorityAfterActivation(c.id));
    assert late == if AuthorityUnordered(p, g, activation.id) then [AuthorityAfterActivation(c.id)] else [];
    errors := When(!activation.sourceBacked, ActivationNotSource(c.id))
              + When(activation.owner != c.sourceOwner, ActivationOwner(c.id))
              + When(activation.id in Elements(c.commissioning), ActivationIsCommissioning(c.id))
              + late + waiting + after;
  }

  method CheckChain(p: Packet, c: Chain) returns (errors: seq<Finding>)
    ensures errors == PerChain(p)(c)
  {
    if c.gate !in GateById(p) {
      return [];
    }
    var g := GateById(p)[c.gate];
    errors := ChainBasics(p, c, g);
    match c.posture {
      case SourceReady =>
        var more := CheckReadyChain(p, c, g);
        errors := errors + more;
      case OwnerSourceChangeRequired =>
        if c.activationUnit.None? || c.activationUnit.value !in UnitById(p) {
          errors := errors + [ActivationUnknown(c.id)];
        } else {
          var more := CheckActivation(p, c, g, UnitById(p)[c.activationUnit.value]);
          errors := errors + more;
        }
    }
  }

  method CheckChains(p: Packet) returns (errors: seq<Finding>)
    ensures errors == ChainFindings(p)
  {
    var each := [];
    for i := 0 to |p.chains|
      invariant each == FlatMap(p.chains[..i], PerChain(p))
    {
      FlatMapSnoc(p.chains, PerChain(p), i);
      var more := CheckChain(p, p.chains[i]);
      each := each + more;
    }
    assert p.chains[..|p.chains|] == p.chains;
    errors := When(|ChainIds(p)| != |Elements(ChainIds(p))|, ChainIdsRepeat)
              + When(|ChainGates(p)| != |Elements(ChainGates(p))|, ChainGatesRepeat)
              + When(Elements(ChainGates(p)) != RuntimeGates(p), ChainGateCoverage)
              + each;
  }

  // ----- conformance closure

  /** The covered items some walk of the schedule leads to from `owner`. */
  method Downstream(p: Packet, owner: Id) returns (found: set<Id>)
    ensures forall x :: x in found <==> x in Covered(p) && Reaches(ScheduleEdges(p), owner, x)
  {
    found := {};
    var candidates := Covered(p);
    while candidates != {}
      invariant candidates <= Covered(p)
      invariant forall x :: x in found <==> x in Covered(p) - candidates && Reaches(ScheduleEdges(p), owner, x)
      decreases candidates
    {
      var candidate :| candidate in candidates;
      var reached := GraphHasPath(ScheduleEdges(p), owner, candidate);
      candidates := candidates - {candidate};
      if reached {
        found := found + {candidate};
      }
    }
  }

  method ScheduleClosure(p: Packet, ownerItems: seq<Id>) returns (ordered: set<Id>)
    ensures forall x :: x in ordered <==> OrderedBySchedule(p, ownerItems, x)
  {
    var after: set<Id> := {};
    for i := 0 to |ownerItems|
      invariant forall x :: x in after <==>
        x in Covered(p) && exists owner :: owner in ownerItems[..i] && Reaches(ScheduleEdges(p), owner, x)
    {
      var found := Downstream(p, ownerItems[i]);
      assert ownerItems[..i + 1] == ownerItems[..i] + [ownerItems[i]];
      assert forall owner :: owner in ownerItems[..i + 1] <==> owner in ownerItems[..i] || owner == ownerItems[i];
      after := after + found;
    }
    assert ownerItems[..|ownerItems|] == ownerItems;
    ordered := Elements(ownerItems) + after;
  }

  /** The owner items, what follows them, and every parent above either. */
  method OrderedOutcomes(p: Packet, ownerItems: seq<Id>) returns (outcomes: set<Id>)
    ensures forall x :: x in outcomes <==> CausallyOrdered(p, ownerItems, x)
  {
    var ordered := ScheduleClosure(p, ownerItems);
    outcomes := ordered;
    var pending := ordered;
    while pending != {}
      invariant pending <= ordered
      invariant forall x :: x in outcomes <==>
        x in ordered || exists below :: below in ordered - pending && Ancestor(ParentOf(p), below, x)
      decreases pending
    {
      var item :| item in pending;
      var above := AncestorsOf(ParentOf(p), item);
      ghost var outcomes0, pending0 := outcomes, pending;
      pending := pending - {item};
      outcomes := outcomes + above;
      forall x
        ensures x in outcomes <==>
          x in ordered || exists below :: below in ordered - pending && Ancestor(ParentOf(p), below, x)
      {
        assert x in outcomes0 <==>
          x in ordered || exists below :: below in ordered - pending0 && Ancestor(ParentOf(p), below, x);
        assert x in above <==> Ancestor(ParentOf(p), item, x);
      }
    }
  }

  method CheckCase(p: Packet, c: Case) returns (errors: seq<Finding>)
    ensures errors == PerCase(p)(c)
  {
    if c.ownerUnit !in UnitById(p) {
      return [CaseOwnerUnknown(c.id)];
    }
    var ownerItems := UnitById(p)[c.ownerUnit].covered;
    var outcomes := OrderedOutcomes(p, ownerItems);
    errors := [];
    for i := 0 to |c.appliesTo|
      invariant errors == FlatMap(c.appliesTo[..i], PerApplicable(p, c, ownerItems))
    {
      FlatMapSnoc(c.appliesTo, PerApplicable(p, c, ownerItems), i);
      if c.appliesTo[i] !in outcomes {
        errors := errors + [CaseUnordered(c.id, c.appliesTo[i])];
      }
    }
    assert c.appliesTo[..|c.appliesTo|] == c.appliesTo;
  }

  method CheckConformance(p: Packet) returns (errors: seq<Finding>)
    ensures errors == ConformanceFindings(p)
  {
    errors := [];
    for i := 0 to |p.cases|
      invariant errors == FlatMap(p.cases[..i], PerCase(p))
    {
      FlatMapSnoc(p.cases, PerCase(p), i);
      var more := CheckCase(p, p.cases[i]);
      errors := errors + more;
    }
    assert p.cases[..|p.cases|] == p.cases;
  }

  /** The findings of a packet, without repetitions. */
  method ArchitectureSemanticErrors(p: Packet) returns (errors: seq<Finding>)
    requires 3 <= p.version <= 6
    ensures errors == Dedup(ArchitectureFindings(p))
  {
    var boundaries := CheckBoundaries(p);
    var owners := CheckOwnerMap(p);
    var plan := CheckPlan(p);
    var units := CheckUnits(p);
    var handoffs := CheckHandoffs(p);
    var gates := CheckGates(p);
    var emissions := CheckEmissions(p);
    var chains, cases := [], [];
    if p.version == 6 {
      chains := CheckChains(p);
    }
    if p.version == 5 || p.version == 6 {
      cases := CheckConformance(p);
    }
    var repos := RevisionRepos(p);
    var snapshot := When(|repos| != |Elements(repos)|, RevisionsRepeat)
                    + When(Elements(repos) != OwnerOf(p).Values, RevisionsCoverage)
                    + When(p.fingerprint != p.scope, ScopeMismatch);
    errors := Dedup(boundaries + owners + plan + units + handoffs + gates + emissions + chains + cases + snapshot);
  }
}
