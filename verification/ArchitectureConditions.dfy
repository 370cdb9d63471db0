/**
 When an architecture packet deserves each finding, said of the packet's own entries: which entries are
 there, which steps they describe, and whether some order respects those steps. Nothing here looks at how
 the validator collects its findings.
 */
module ArchitectureConditions {
  import opened Common
  import opened Graphs
  import opened ArchitecturePacket

  // ----- walks and orders of a relation

  /** A non-empty walk of `steps` leads from `a` to `b`. */
  ghost predicate Joined(steps: iset<Edge>, a: Id, b: Id) {
    exists walk: seq<Id> :: Follows(steps, walk) && walk[0] == a && walk[|walk| - 1] == b
  }

  ghost predicate Follows(steps: iset<Edge>, walk: seq<Id>) {
    |walk| >= 2 && forall i :: 0 <= i < |walk| - 1 ==> Edge(walk[i], walk[i + 1]) in steps
  }

  /** Some linear order of the nodes respects every step between two of them. */
  ghost predicate Orderable(nodes: set<Id>, steps: iset<Edge>) {
    exists order :: Lists(nodes, order) && Ordered(nodes, steps, order)
  }

  ghost predicate Ordered(nodes: set<Id>, steps: iset<Edge>, order: seq<Id>) {
    forall e :: e in steps && e.source in nodes && e.target in nodes ==> Precedes(order, e.source, e.target)
  }

  // ----- what the entries say; the last entry of a repeated key counts

  /** No later boundary has this one's owner. */
  ghost predicate LastBoundary(p: Packet, i: int) {
    0 <= i < |p.boundaries| && forall j :: i < j < |p.boundaries| ==> p.boundaries[j].owner != p.boundaries[i].owner
  }

  /** By its last boundary the owner is allowed the capability. */
  ghost predicate May(p: Packet, owner: Id, capability: Id) {
    exists i :: LastBoundary(p, i) && p.boundaries[i].owner == owner
                && p.boundaries[i].allowed.Some? && capability in p.boundaries[i].allowed.value
  }

  ghost predicate MustNot(p: Packet, owner: Id, capability: Id) {
    exists i :: LastBoundary(p, i) && p.boundaries[i].owner == owner
                && p.boundaries[i].prohibited.Some? && capability in p.boundaries[i].prohibited.value
  }

  ghost predicate LastOwner(p: Packet, i: int) {
    0 <= i < |p.owners| && forall j :: i < j < |p.owners| ==> p.owners[j].item != p.owners[i].item
  }

  ghost predicate Owns(p: Packet, owner: Id, item: Id) {
    exists i :: LastOwner(p, i) && p.owners[i].item == item && p.owners[i].owner == owner
  }

  ghost predicate HasOwner(p: Packet, item: Id) {
    exists o :: o in p.owners && o.item == item
  }

  /** What the item's last owner entry names as its parent. */
  ghost predicate Under(p: Packet, item: Id, parent: Option<Id>) {
    exists i :: LastOwner(p, i) && p.owners[i].item == item && p.owners[i].parent == parent
  }

  ghost predicate LastPlan(p: Packet, i: int) {
    0 <= i < |p.plan| && forall j :: i < j < |p.plan| ==> p.plan[j].item != p.plan[i].item
  }

  ghost predicate Planned(p: Packet, item: Id, entry: PlanEntry) {
    exists i :: LastPlan(p, i) && p.plan[i] == entry && entry.item == item
  }

  ghost predicate HasPlan(p: Packet, item: Id) {
    exists entry :: entry in p.plan && entry.item == item
  }

  ghost predicate LastUnit(p: Packet, i: int) {
    0 <= i < |p.units| && forall j :: i < j < |p.units| ==> p.units[j].id != p.units[i].id
  }

  /** The unit's declaration under its identifier. */
  ghost predicate Declared(p: Packet, unitId: Id, u: LandingUnit) {
    exists i :: LastUnit(p, i) && p.units[i] == u && u.id == unitId
  }

  ghost predicate IsUnit(p: Packet, unitId: Id) {
    exists u :: u in p.units && u.id == unitId
  }

  ghost predicate IsSource(p: Packet, unitId: Id) {
    exists u :: u in p.units && u.id == unitId && u.sourceBacked
  }

  ghost predicate HasUnit(p: Packet, item: Id) {
    exists u :: u in p.units && item in u.covered
  }

  /** The last unit that covers the item. */
  ghost predicate LastCover(units: seq<LandingUnit>, i: int, item: Id) {
    && 0 <= i < |units| && item in units[i].covered
    && forall j :: i < j < |units| ==> item !in units[j].covered
  }

  ghost predicate PlacedIn(units: seq<LandingUnit>, item: Id, unitId: Id) {
    exists i :: LastCover(units, i, item) && units[i].id == unitId
  }

  ghost predicate Placed(p: Packet, item: Id, unitId: Id) {
    PlacedIn(p.units, item, unitId)
  }

  ghost predicate LastGate(p: Packet, i: int) {
    0 <= i < |p.gates| && forall j :: i < j < |p.gates| ==> p.gates[j].id != p.gates[i].id
  }

  ghost predicate Guarded(p: Packet, gateId: Id, g: Gate) {
    exists i :: LastGate(p, i) && p.gates[i] == g && g.id == gateId
  }

  ghost predicate IsGate(p: Packet, gateId: Id) {
    exists g :: g in p.gates && g.id == gateId
  }

  ghost predicate LastRevision(p: Packet, i: int) {
    0 <= i < |p.revisions| && forall j :: i < j < |p.revisions| ==> p.revisions[j].0 != p.revisions[i].0
  }

  ghost predicate Revised(p: Packet, repo: Id, revision: Id) {
    exists i :: LastRevision(p, i) && p.revisions[i] == (repo, revision)
  }

  ghost predicate HasRevision(p: Packet, repo: Id) {
    exists r :: r in p.revisions && r.0 == repo
  }

  ghost predicate IsOwner(p: Packet, repo: Id) {
    exists item :: Owns(p, repo, item)
  }

  function Covers(units: seq<LandingUnit>): seq<seq<Id>> {
    seq(|units|, i requires 0 <= i < |units| => units[i].covered)
  }

  function Mentions(plan: seq<PlanEntry>): seq<seq<Id>> {
    seq(|plan|, i requires 0 <= i < |plan| => plan[i].emits)
  }

  /** The lists name `x` at two places, in one list or in two. */
  ghost predicate Twice(lists: seq<seq<Id>>, x: Id) {
    || (exists i, k, m :: 0 <= i < |lists| && 0 <= k < m < |lists[i]| && lists[i][k] == x && lists[i][m] == x)
    || (exists i, j :: 0 <= i < j < |lists| && x in lists[i] && x in lists[j])
  }

  // ----- the steps they describe

  predicate Requires(entry: PlanEntry, before: Id) {
    before in entry.startAfter || before in entry.closeAfter
  }

  ghost function StartSteps(p: Packet): iset<Edge> {
    iset e: Edge | e.source in p.covered && e.source != e.target
                   && exists entry :: entry in p.plan && entry.item == e.target && e.source in entry.startAfter
  }

  ghost function ScheduleSteps(p: Packet): iset<Edge> {
    iset e: Edge | e.source in p.covered && e.source != e.target
                   && exists entry :: entry in p.plan && entry.item == e.target && Requires(entry, e.source)
  }

  ghost function LandingSteps(p: Packet): iset<Edge> {
    iset e: Edge | e in p.sourceEdges && e.source in p.sourceNodes && e.target in p.sourceNodes
  }

  ghost function ParentSteps(p: Packet): iset<Edge> {
    iset e: Edge | Under(p, e.source, Some(e.target))
  }

  predicate Early(g: Gate) {
    g.blocked == BeforeImplementation || g.blocked == BeforeSourceMerge
  }

  /** A prerequisite of the schedule between items placed in the two units. */
  ghost predicate CrossesUnits(p: Packet, e: Edge) {
    exists w :: w in ScheduleSteps(p) && Placed(p, w.source, e.source) && Placed(p, w.target, e.target)
  }

  /** An early gate decided in the one unit blocks the other. */
  ghost predicate HeldByGate(p: Packet, e: Edge) {
    exists g :: g in p.gates && Early(g) && Placed(p, g.authorityItem, e.source) && e.target in g.affected
  }

  /** What makes one Landing Unit wait for another. */
  ghost function UnitSteps(p: Packet): iset<Edge> {
    LandingSteps(p)
    + iset e: Edge | IsUnit(p, e.source) && IsUnit(p, e.target) && e.source != e.target
                     && (CrossesUnits(p, e) || HeldByGate(p, e))
  }

  /** Both units are source nodes and no walk of source landings leads from the one to the other. */
  ghost predicate Unordered(p: Packet, before: Id, after: Id) {
    before in p.sourceNodes && after in p.sourceNodes && !Joined(LandingSteps(p), before, after)
  }

  /** The unit of the gate's authority item is not known to land before the unit. */
  ghost predicate AuthorityLate(p: Packet, g: Gate, after: Id) {
    exists unitId :: Placed(p, g.authorityItem, unitId) && Unordered(p, unitId, after)
  }

  // ----- when a finding is due

  // A section is due a finding about the section as a whole, or one that an entry of it owes.

  ghost predicate BoundsTwice(p: Packet) {
    exists i, j :: 0 <= i < j < |p.boundaries| && p.boundaries[i].owner == p.boundaries[j].owner
  }

  ghost predicate OrchestrationLacks(p: Packet) {
    exists c :: c in ORCHESTRATION_CAPABILITIES && !May(p, ORCHESTRATION_OWNER, c)
  }

  ghost predicate OrchestrationBarred(p: Packet) {
    MustNot(p, ORCHESTRATION_OWNER, PERSIST) && MustNot(p, ORCHESTRATION_OWNER, PROJECT_CONTENT)
  }

  ghost predicate CapabilityDue(p: Packet, f: Finding) {
    || (f == PersistenceUnassigned && !May(p, CUSTODY_OWNER, PERSIST))
    || (f == OrchestrationIncomplete && OrchestrationLacks(p))
    || (f == OrchestrationUnlimited && !OrchestrationBarred(p))
    || (f == PersistenceElsewhere && exists owner :: owner != CUSTODY_OWNER && May(p, owner, PERSIST))
    || (f == ContentProjected && exists owner :: May(p, owner, PROJECT_CONTENT))
  }

  /** There are boundaries, and none leaves out what its owner may or must not do. */
  ghost predicate ListsBothSides(p: Packet) {
    |p.boundaries| > 0 && !exists b :: b in p.boundaries && (b.allowed == None || b.prohibited == None)
  }

  ghost predicate BoundaryDue(p: Packet, f: Finding) {
    (f == BoundariesRepeat && BoundsTwice(p)) || (ListsBothSides(p) && CapabilityDue(p, f))
  }

  ghost predicate OwnsTwice(p: Packet) {
    exists i, j :: 0 <= i < j < |p.owners| && p.owners[i].item == p.owners[j].item
  }

  ghost predicate OwnersCovered(p: Packet) {
    forall item :: item in p.covered <==> HasOwner(p, item)
  }

  ghost predicate Rooted(p: Packet) {
    p.owners != [] ==> exists item :: Under(p, item, None)
  }

  ghost predicate UnderUnknown(p: Packet, item: Id) {
    exists parent :: Under(p, item, Some(parent)) && parent !in p.covered
  }

  ghost predicate OwnerMapDue(p: Packet, f: Finding) {
    || (f == OwnerMapRepeats && OwnsTwice(p))
    || (f == OwnerMapCoverage && !OwnersCovered(p))
    || (f == NoRoot && !Rooted(p))
    || (f.UnknownParent? && UnderUnknown(p, f.item))
    || (f == ParentCycle && exists item :: Joined(ParentSteps(p), item, item))
  }

  ghost predicate RepeatsPrerequisite(entry: PlanEntry) {
    exists x :: x in entry.startAfter && x in entry.closeAfter
  }

  ghost predicate AwaitsUnknown(p: Packet, entry: PlanEntry) {
    exists x :: Requires(entry, x) && x !in p.covered
  }

  /** What one plan entry is at fault for. */
  ghost predicate EntryOwes(p: Packet, entry: PlanEntry, f: Finding) {
    || (f == PrerequisiteInBoth(entry.item) && RepeatsPrerequisite(entry))
    || (f == PrerequisiteUnknown(entry.item) && AwaitsUnknown(p, entry))
    || (f == PrerequisiteSelf(entry.item) && Requires(entry, entry.item))
  }

  ghost predicate PlansTwice(p: Packet) {
    exists i, j :: 0 <= i < j < |p.plan| && p.plan[i].item == p.plan[j].item
  }

  ghost predicate PlansCovered(p: Packet) {
    forall item :: item in p.covered <==> HasPlan(p, item)
  }

  ghost predicate SomeEntryOwes(p: Packet, f: Finding) {
    exists entry :: entry in p.plan && EntryOwes(p, entry, f)
  }

  ghost predicate PlanDue(p: Packet, f: Finding) {
    || (f == PlanRepeats && PlansTwice(p))
    || (f == PlanCoverage && !PlansCovered(p))
    || SomeEntryOwes(p, f)
    || (f == StartCycle && !Orderable(Covered(p), StartSteps(p)))
    || (f == ScheduleCycle && !Orderable(Covered(p), ScheduleSteps(p)))
  }

  ghost predicate OwnedElsewhere(p: Packet, item: Id, owner: Id) {
    exists other :: Owns(p, other, item) && other != owner
  }

  /** What one Landing Unit is at fault for. */
  ghost predicate UnitOwes(p: Packet, u: LandingUnit, f: Finding) {
    exists item :: item in u.covered
                   && ((f == UnitItemUnknown(u.id, item) && item !in p.covered)
                       || (f == UnitOwnerMismatch(u.id, item) && OwnedElsewhere(p, item, u.owner)))
  }

  ghost predicate DeclaresTwice(p: Packet) {
    exists i, j :: 0 <= i < j < |p.units| && p.units[i].id == p.units[j].id
  }

  ghost predicate PlacesCovered(p: Packet) {
    forall item :: item in p.covered <==> HasUnit(p, item)
  }

  ghost predicate SourcesListed(p: Packet) {
    forall unitId :: unitId in p.sourceNodes <==> IsSource(p, unitId)
  }

  ghost predicate EdgeOutside(p: Packet) {
    exists e :: e in p.sourceEdges && (e.source !in p.sourceNodes || e.target !in p.sourceNodes)
  }

  ghost predicate SomeUnitOwes(p: Packet, f: Finding) {
    exists u :: u in p.units && UnitOwes(p, u, f)
  }

  ghost predicate UnitDue(p: Packet, f: Finding) {
    || (f == UnitIdsRepeat && DeclaresTwice(p))
    || SomeUnitOwes(p, f)
    || (f == UnitsCoverage && !PlacesCovered(p))
    || (f == ItemAssignedTwice && exists item :: Twice(Covers(p.units), item))
    || (f == SourceNodesCoverage && !SourcesListed(p))
    || (f == SourceEdgeUnknown && EdgeOutside(p))
    || (f == SourceCycle && !Orderable(Elements(p.sourceNodes), LandingSteps(p)))
  }

  ghost predicate UnitOwnedElsewhere(p: Packet, unitId: Id, owner: Id) {
    exists u :: Declared(p, unitId, u) && u.owner != owner
  }

  /** What one handoff is at fault for, on its producing or its consuming side or between them. */
  ghost predicate HandoffOwes(p: Packet, h: Handoff, f: Finding) {
    || (f == HandoffSameOwner(h.id) && h.producer == h.consumer)
    || (f == HandoffUnitUnknown(h.id, true) && !IsUnit(p, h.producerUnit))
    || (f == HandoffUnitUnknown(h.id, false) && !IsUnit(p, h.consumerUnit))
    || (f == HandoffUnitOwner(h.id, true) && UnitOwnedElsewhere(p, h.producerUnit, h.producer))
    || (f == HandoffUnitOwner(h.id, false) && UnitOwnedElsewhere(p, h.consumerUnit, h.consumer))
    || (f == HandoffItemUnknown(h.id, true) && h.producerItem !in p.covered)
    || (f == HandoffItemUnknown(h.id, false) && h.consumerItem !in p.covered)
    || (f == HandoffItemElsewhere(h.id, true)
        && h.producerItem in p.covered && !Placed(p, h.producerItem, h.producerUnit))
    || (f == HandoffItemElsewhere(h.id, false)
        && h.consumerItem in p.covered && !Placed(p, h.consumerItem, h.consumerUnit))
    || (f == HandoffUnordered(h.id) && Unordered(p, h.producerUnit, h.consumerUnit))
  }

  ghost predicate HandsOverTwice(p: Packet) {
    exists i, j :: 0 <= i < j < |p.handoffs| && p.handoffs[i].id == p.handoffs[j].id
  }

  ghost predicate HandoffDue(p: Packet, f: Finding) {
    || (f == HandoffIdsRepeat && HandsOverTwice(p))
    || exists h :: h in p.handoffs && HandoffOwes(p, h, f)
  }

  /** The item's plan entry names `before` as a prerequisite. */
  ghost predicate Awaits(p: Packet, item: Id, before: Id) {
    exists entry :: Planned(p, item, entry) && Requires(entry, before)
  }

  ghost predicate AffectsUnknown(p: Packet, g: Gate) {
    exists unitId :: unitId in g.affected && !IsUnit(p, unitId)
  }

  ghost predicate AffectsNonSource(p: Packet, g: Gate) {
    exists unitId :: unitId in g.affected && !IsSource(p, unitId)
  }

  ghost predicate EvidenceUnknown(p: Packet, g: Gate) {
    exists item :: item in g.evidenceItems && item !in p.covered
  }

  ghost predicate EvidenceAbsent(p: Packet, g: Gate) {
    exists item :: item in g.evidenceItems && !Awaits(p, g.authorityItem, item)
  }

  /** What one human gate is at fault for. */
  ghost predicate GateOwes(p: Packet, g: Gate, f: Finding) {
    || (f == GateAuthorityUnknown(g.id) && g.authorityItem !in p.covered)
    || (f == GateOwnerMismatch(g.id) && OwnedElsewhere(p, g.authorityItem, g.authorityOwner))
    || (f == GateUnitsUnknown(g.id) && AffectsUnknown(p, g))
    || (f == GateBlocksNonSource(g.id) && g.blocked == BeforeSourceMerge && AffectsNonSource(p, g))
    || (f == GateEvidenceUnknown(g.id) && EvidenceUnknown(p, g))
    || (f == GateEvidenceAbsent(g.id) && EvidenceAbsent(p, g))
  }

  ghost predicate GuardsTwice(p: Packet) {
    exists i, j :: 0 <= i < j < |p.gates| && p.gates[i].id == p.gates[j].id
  }

  ghost predicate SomeGateOwes(p: Packet, f: Finding) {
    exists g :: g in p.gates && GateOwes(p, g, f)
  }

  ghost predicate GateDue(p: Packet, f: Finding) {
    || (f == GateIdsRepeat && GuardsTwice(p))
    || SomeGateOwes(p, f)
    || (f == CombinedCycle && !Orderable(Elements(UnitIds(p)), UnitSteps(p)))
  }

  ghost predicate EmitsUndeclared(p: Packet) {
    exists entry, gateId :: entry in p.plan && gateId in entry.emits && !IsGate(p, gateId)
  }

  ghost predicate Emitted(p: Packet, gateId: Id) {
    exists entry :: entry in p.plan && gateId in entry.emits
  }

  /** A gate emitted once, by an entry other than its authority item's. */
  ghost predicate EmittedElsewhere(p: Packet, gateId: Id) {
    && !Twice(Mentions(p.plan), gateId)
    && exists entry, g ::
         entry in p.plan && gateId in entry.emits && Guarded(p, gateId, g) && g.authorityItem != entry.item
  }

  ghost predicate SaysNothing(p: Packet, item: Id) {
    forall entry :: Planned(p, item, entry) ==> entry.emits == []
  }

  ghost predicate EmissionDue(p: Packet, f: Finding) {
    || (f == EmitsUnknownGates && EmitsUndeclared(p))
    || (f == GatesNotEmitted && exists g :: g in p.gates && !Emitted(p, g.id))
    || (f.EmittedNotOnce? && Twice(Mentions(p.plan), f.id))
    || (f.EmittedByOther? && EmittedElsewhere(p, f.id))
    || (f.SecurityItemSilent? && Owns(p, SECURITY_OWNER, f.item) && SaysNothing(p, f.item))
  }

  ghost predicate HasChain(p: Packet, gateId: Id) {
    exists c :: c in p.chains && c.gate == gateId
  }

  ghost predicate GuardsActivation(p: Packet, gateId: Id) {
    exists g :: g in p.gates && g.id == gateId && g.blocked == BeforeRuntimeActivation
  }

  ghost predicate Commissions(p: Packet, c: Chain, unitId: Id) {
    unitId in c.commissioning && exists u :: Declared(p, unitId, u) && !u.sourceBacked
  }

  /** What every chain about the gate `g` may be at fault for. */
  ghost predicate BasicsOwed(p: Packet, c: Chain, g: Gate, f: Finding) {
    || (f == ChainUnitsMismatch(c.id) && !forall u :: u in c.commissioning <==> u in g.affected)
    || (f == ChainOwnerOutside(c.id) && !IsOwner(p, c.sourceOwner))
    || (f == ChainEvidenceRepo(c.id) && c.evidenceRepo != c.sourceOwner)
    || (f == ChainEvidenceRevision(c.id) && !Revised(p, c.sourceOwner, c.evidenceRevision))
    || (f == ChainEvidencePosture(c.id) && c.evidencePosture != c.posture)
    || (f.CommissioningNotSource? && f.id == c.id && Commissions(p, c, f.unitId))
  }

  /** What a chain is at fault for with its activation unit. */
  ghost predicate ActivationOwes(p: Packet, c: Chain, g: Gate, u: LandingUnit, f: Finding) {
    || (f == ActivationNotSource(c.id) && !u.sourceBacked)
    || (f == ActivationOwner(c.id) && u.owner != c.sourceOwner)
    || (f == ActivationIsCommissioning(c.id) && u.id in c.commissioning)
    || (f == AuthorityAfterActivation(c.id) && AuthorityLate(p, g, u.id))
    || (f.ActivationNotWaiting? && f.id == c.id && f.item in u.covered && !Awaits(p, f.item, g.authorityItem))
    || (f.ActivationAfterCommissioning? && f.id == c.id && f.unitId in c.commissioning
        && Unordered(p, u.id, f.unitId))
  }

  /** What a chain whose source is ready is at fault for. */
  ghost predicate ReadyOwes(p: Packet, c: Chain, g: Gate, f: Finding) {
    && f.AuthorityAfterCommissioning? && f.id == c.id && f.unitId in c.commissioning
    && AuthorityLate(p, g, f.unitId)
  }

  /** The declared unit in which the chain changes owner source. */
  ghost predicate Activates(p: Packet, c: Chain, u: LandingUnit) {
    c.activationUnit.Some? && Declared(p, c.activationUnit.value, u)
  }

  /** What a chain that changes owner source is at fault for. */
  ghost predicate ChangeOwes(p: Packet, c: Chain, g: Gate, f: Finding) {
    || (f == ActivationUnknown(c.id) && (c.activationUnit.None? || !IsUnit(p, c.activationUnit.value)))
    || exists u :: Activates(p, c, u) && ActivationOwes(p, c, g, u, f)
  }

  ghost predicate ChainOwes(p: Packet, c: Chain, g: Gate, f: Finding) {
    || BasicsOwed(p, c, g, f)
    || (c.posture == SourceReady && ReadyOwes(p, c, g, f))
    || (c.posture == OwnerSourceChangeRequired && ChangeOwes(p, c, g, f))
  }

  ghost predicate ChainsTwice(p: Packet) {
    exists i, j :: 0 <= i < j < |p.chains| && p.chains[i].id == p.chains[j].id
  }

  ghost predicate ChainsGateTwice(p: Packet) {
    exists i, j :: 0 <= i < j < |p.chains| && p.chains[i].gate == p.chains[j].gate
  }

  ghost predicate ActivationsChained(p: Packet) {
    forall gateId :: HasChain(p, gateId) <==> GuardsActivation(p, gateId)
  }

  /** A chain whose gate is undeclared is looked at no further. */
  ghost predicate SomeChainOwes(p: Packet, f: Finding) {
    exists c, g :: c in p.chains && Guarded(p, c.gate, g) && ChainOwes(p, c, g, f)
  }

  ghost predicate ChainDue(p: Packet, f: Finding) {
    || (f == ChainIdsRepeat && ChainsTwice(p))
    || (f == ChainGatesRepeat && ChainsGateTwice(p))
    || (f == ChainGateCoverage && !ActivationsChained(p))
    || SomeChainOwes(p, f)
  }

  /** An item of the unit, or a covered item scheduled after one. */
  ghost predicate Scheduled(p: Packet, u: LandingUnit, item: Id) {
    item in u.covered
    || (item in p.covered && exists owned :: owned in u.covered && Joined(ScheduleSteps(p), owned, item))
  }

  /** Such an item, or a parent somewhere above one. */
  ghost predicate Outcome(p: Packet, u: LandingUnit, item: Id) {
    Scheduled(p, u, item) || exists below :: Scheduled(p, u, below) && Joined(ParentSteps(p), below, item)
  }

  ghost predicate OutsideOutcomes(p: Packet, unitId: Id, item: Id) {
    exists u :: Declared(p, unitId, u) && !Outcome(p, u, item)
  }

  ghost predicate CaseOwes(p: Packet, c: Case, f: Finding) {
    || (f == CaseOwnerUnknown(c.id) && !IsUnit(p, c.ownerUnit))
    || (f.CaseUnordered? && f.id == c.id && f.item in c.appliesTo && OutsideOutcomes(p, c.ownerUnit, f.item))
  }

  ghost predicate CaseDue(p: Packet, f: Finding) {
    exists c :: c in p.cases && CaseOwes(p, c, f)
  }

  ghost predicate RevisesTwice(p: Packet) {
    exists i, j :: 0 <= i < j < |p.revisions| && p.revisions[i].0 == p.revisions[j].0
  }

  ghost predicate OwnersRevised(p: Packet) {
    forall repo :: HasRevision(p, repo) <==> IsOwner(p, repo)
  }

  ghost predicate SnapshotDue(p: Packet, f: Finding) {
    || (f == RevisionsRepeat && RevisesTwice(p))
    || (f == RevisionsCoverage && !OwnersRevised(p))
    || (f == ScopeMismatch && p.fingerprint != p.scope)
  }

  /** The finding is due to the packet. */
  ghost predicate Due(p: Packet, f: Finding) {
    || BoundaryDue(p, f) || OwnerMapDue(p, f) || PlanDue(p, f) || UnitDue(p, f) || HandoffDue(p, f) || GateDue(p, f)
    || EmissionDue(p, f)
    || (p.version == 6 && ChainDue(p, f))
    || ((p.version == 5 || p.version == 6) && CaseDue(p, f))
    || SnapshotDue(p, f)
  }
}
