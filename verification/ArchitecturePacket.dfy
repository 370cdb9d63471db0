/**
 Architecture packets of schema versions 3 to 6, in the typed shape the JSON Schema grants,
 and the findings a packet deserves, stated over walks, cycles and parent chains rather than
 over the validator's worklists.
 */
module ArchitecturePacket {
  import opened Common
  import opened Graphs

  datatype OwnerEntry = OwnerEntry(item: Id, owner: Id, parent: Option<Id>)

  datatype PlanEntry = PlanEntry(item: Id, startAfter: seq<Id>, closeAfter: seq<Id>, emits: seq<Id>)

  datatype LandingUnit = LandingUnit(id: Id, owner: Id, sourceBacked: bool, covered: seq<Id>)

  datatype Handoff = Handoff(id: Id, producer: Id, consumer: Id, producerUnit: Id, consumerUnit: Id,
                             producerItem: Id, consumerItem: Id)

  datatype Transition = BeforeImplementation | BeforeSourceMerge | BeforeRuntimeActivation | BeforeOperatingReady

  datatype Gate = Gate(id: Id, authorityItem: Id, authorityOwner: Id, blocked: Transition,
                       affected: seq<Id>, evidenceItems: seq<Id>)

  datatype Posture = SourceReady | OwnerSourceChangeRequired

  datatype Chain = Chain(id: Id, gate: Id, sourceOwner: Id, posture: Posture, evidenceRepo: Id,
                         evidenceRevision: Id, evidencePosture: Posture, activationUnit: Option<Id>,
                         commissioning: seq<Id>)

  datatype Case = Case(id: Id, ownerUnit: Id, appliesTo: seq<Id>)

  /** What an owner's runtime may and must not do; a packet need not list capabilities. */
  datatype Boundary = Boundary(owner: Id, allowed: Option<seq<Id>>, prohibited: Option<seq<Id>>)

  /** `scope` is the digest of the packet's scope projection, `fingerprint` the one it states. */
  datatype Packet = Packet(version: nat, boundaries: seq<Boundary>, covered: seq<Id>, owners: seq<OwnerEntry>,
                           plan: seq<PlanEntry>,
                           units: seq<LandingUnit>, sourceNodes: seq<Id>, sourceEdges: seq<Edge>,
                           handoffs: seq<Handoff>, gates: seq<Gate>, chains: seq<Chain>,
                           cases: seq<Case>, revisions: seq<(Id, Id)>, scope: Id, fingerprint: Id)

  datatype Finding =
    | BoundariesRepeat | PersistenceUnassigned | OrchestrationIncomplete | OrchestrationUnlimited
    | PersistenceElsewhere | ContentProjected
    | OwnerMapRepeats | OwnerMapCoverage | NoRoot | UnknownParent(item: Id) | ParentCycle
    | PlanRepeats | PlanCoverage | PrerequisiteInBoth(item: Id) | PrerequisiteUnknown(item: Id)
    | PrerequisiteSelf(item: Id) | StartCycle | ScheduleCycle
    | UnitIdsRepeat | UnitItemUnknown(unitId: Id, item: Id) | UnitOwnerMismatch(unitId: Id, item: Id)
    | UnitsCoverage | ItemAssignedTwice | SourceNodesCoverage | SourceEdgeUnknown | SourceCycle
    | HandoffIdsRepeat | HandoffSameOwner(id: Id)
    | HandoffUnitUnknown(id: Id, producing: bool) | HandoffUnitOwner(id: Id, producing: bool)
    | HandoffItemUnknown(id: Id, producing: bool) | HandoffItemElsewhere(id: Id, producing: bool)
    | HandoffUnordered(id: Id)
    | GateIdsRepeat | GateAuthorityUnknown(id: Id) | GateOwnerMismatch(id: Id) | GateUnitsUnknown(id: Id)
    | GateBlocksNonSource(id: Id) | GateEvidenceUnknown(id: Id) | GateEvidenceAbsent(id: Id)
    | CombinedCycle
    | EmitsUnknownGates | GatesNotEmitted | EmittedNotOnce(id: Id) | EmittedByOther(id: Id)
    | SecurityItemSilent(item: Id)
    | ChainIdsRepeat | ChainGatesRepeat | ChainGateCoverage | ChainUnitsMismatch(id: Id) | ChainOwnerOutside(id: Id)
    | ChainEvidenceRepo(id: Id) | ChainEvidenceRevision(id: Id) | ChainEvidencePosture(id: Id)
    | CommissioningNotSource(id: Id, unitId: Id) | AuthorityAfterCommissioning(id: Id, unitId: Id)
    | ActivationUnknown(id: Id) | ActivationNotSource(id: Id) | ActivationOwner(id: Id)
    | ActivationIsCommissioning(id: Id) | AuthorityAfterActivation(id: Id)
    | ActivationNotWaiting(id: Id, item: Id) | ActivationAfterCommissioning(id: Id, unitId: Id)
    | CaseOwnerUnknown(id: Id) | CaseUnordered(id: Id, item: Id)
    | RevisionsRepeat | RevisionsCoverage | ScopeMismatch

  // ----- the lookups the validator builds; a later entry for the same key wins

  function Covered(p: Packet): set<Id> {
    Elements(p.covered)
  }

  function OwnerItems(p: Packet): seq<Id> {
    seq(|p.owners|, i requires 0 <= i < |p.owners| => p.owners[i].item)
  }

  function OwnerOf(p: Packet): map<Id, Id> {
    LastWins(seq(|p.owners|, i requires 0 <= i < |p.owners| => (p.owners[i].item, p.owners[i].owner)))
  }

  function ParentOf(p: Packet): map<Id, Option<Id>> {
    LastWins(seq(|p.owners|, i requires 0 <= i < |p.owners| => (p.owners[i].item, p.owners[i].parent)))
  }

  function PlanItems(p: Packet): seq<Id> {
    seq(|p.plan|, i requires 0 <= i < |p.plan| => p.plan[i].item)
  }

  function PlanPairs(p: Packet): seq<(Id, PlanEntry)> {
    seq(|p.plan|, i requires 0 <= i < |p.plan| => (p.plan[i].item, p.plan[i]))
  }

  function PlanOf(p: Packet): map<Id, PlanEntry> {
    LastWins(PlanPairs(p))
  }

  /** Start and close prerequisites of an item's last plan entry; none when it has no entry. */
  function PrerequisitesOf(p: Packet, item: Id): set<Id> {
    if item in PlanOf(p) then Elements(PlanOf(p)[item].startAfter) + Elements(PlanOf(p)[item].closeAfter) else {}
  }

  function EmittedBy(p: Packet, item: Id): seq<Id> {
    if item in PlanOf(p) then PlanOf(p)[item].emits else []
  }

  function UnitIds(p: Packet): seq<Id> {
    seq(|p.units|, i requires 0 <= i < |p.units| => p.units[i].id)
  }

  function UnitPairs(p: Packet): seq<(Id, LandingUnit)> {
    seq(|p.units|, i requires 0 <= i < |p.units| => (p.units[i].id, p.units[i]))
  }

  function UnitById(p: Packet): map<Id, LandingUnit> {
    LastWins(UnitPairs(p))
  }

  function UnitAssignments(u: LandingUnit): seq<(Id, Id)> {
    seq(|u.covered|, i requires 0 <= i < |u.covered| => (u.covered[i], u.id))
  }

  const PerUnitAssignments: LandingUnit -> seq<(Id, Id)> := u => UnitAssignments(u)

  /** (work item, Landing Unit) pairs in document order. */
  function Assignments(p: Packet): seq<(Id, Id)> {
    FlatMap(p.units, PerUnitAssignments)
  }

  function AssignedItems(p: Packet): seq<Id> {
    seq(|Assignments(p)|, i requires 0 <= i < |Assignments(p)| => Assignments(p)[i].0)
  }

  function UnitOf(p: Packet): map<Id, Id> {
    LastWins(Assignments(p))
  }

  function SourceBacked(p: Packet): set<Id> {
    set u | u in p.units && u.sourceBacked :: u.id
  }

  function HandoffIds(p: Packet): seq<Id> {
    seq(|p.handoffs|, i requires 0 <= i < |p.handoffs| => p.handoffs[i].id)
  }

  function GateIds(p: Packet): seq<Id> {
    seq(|p.gates|, i requires 0 <= i < |p.gates| => p.gates[i].id)
  }

  function GatePairs(p: Packet): seq<(Id, Gate)> {
    seq(|p.gates|, i requires 0 <= i < |p.gates| => (p.gates[i].id, p.gates[i]))
  }

  function GateById(p: Packet): map<Id, Gate> {
    LastWins(GatePairs(p))
  }

  function ChainIds(p: Packet): seq<Id> {
    seq(|p.chains|, i requires 0 <= i < |p.chains| => p.chains[i].id)
  }

  function ChainGates(p: Packet): seq<Id> {
    seq(|p.chains|, i requires 0 <= i < |p.chains| => p.chains[i].gate)
  }

  function RevisionRepos(p: Packet): seq<Id> {
    seq(|p.revisions|, i requires 0 <= i < |p.revisions| => p.revisions[i].0)
  }

  // ----- the precedence relations

  /** One edge into `item` from each listed prerequisite that is covered and not the item itself. */
  function PrerequisiteEdges(covered: set<Id>, listed: seq<Id>, item: Id): seq<Edge> {
    if listed == [] then [] else
      var rest := PrerequisiteEdges(covered, listed[..|listed| - 1], item);
      var last := listed[|listed| - 1];
      if last in covered && last != item then rest + [Edge(last, item)] else rest
  }

  function PerEntryStart(covered: set<Id>): PlanEntry -> seq<Edge> {
    (entry: PlanEntry) => PrerequisiteEdges(covered, entry.startAfter, entry.item)
  }

  function PerEntrySchedule(covered: set<Id>): PlanEntry -> seq<Edge> {
    (entry: PlanEntry) => PrerequisiteEdges(covered, entry.startAfter + entry.closeAfter, entry.item)
  }

  function StartEdges(p: Packet): seq<Edge> {
    FlatMap(p.plan, PerEntryStart(Covered(p)))
  }

  function ScheduleEdges(p: Packet): seq<Edge> {
    FlatMap(p.plan, PerEntrySchedule(Covered(p)))
  }

  /** The source landing edges that join declared nodes. */
  function SourceOrder(p: Packet): seq<Edge> {
    Inside(Elements(p.sourceNodes), p.sourceEdges)
  }

  /** The edge between two Landing Units when both are declared and they differ. */
  function UnitEdge(p: Packet, before: Option<Id>, after: Option<Id>): seq<Edge> {
    if before.Some? && after.Some? && before.value in UnitIds(p) && after.value in UnitIds(p) && before != after
    then [Edge(before.value, after.value)]
    else []
  }

  function PerScheduleEdge(p: Packet): Edge -> seq<Edge> {
    (e: Edge) => UnitEdge(p, Get(UnitOf(p), e.source), Get(UnitOf(p), e.target))
  }

  /** Work prerequisites that cross Landing Units. */
  function CrossUnitEdges(p: Packet): seq<Edge> {
    FlatMap(ScheduleEdges(p), PerScheduleEdge(p))
  }

  function PerAffectedUnit(p: Packet, gate: Gate): Id -> seq<Edge> {
    (unitId: Id) => UnitEdge(p, Get(UnitOf(p), gate.authorityItem), Some(unitId))
  }

  function PerEarlyGate(p: Packet): Gate -> seq<Edge> {
    (gate: Gate) =>
      if gate.blocked == BeforeImplementation || gate.blocked == BeforeSourceMerge
      then FlatMap(gate.affected, PerAffectedUnit(p, gate))
      else []
  }

  /** From each early human gate's authority unit to the units it blocks. */
  function EarlyGateEdges(p: Packet): seq<Edge> {
    FlatMap(p.gates, PerEarlyGate(p))
  }

  function CombinedUnitEdges(p: Packet): seq<Edge> {
    SourceOrder(p) + CrossUnitEdges(p) + EarlyGateEdges(p)
  }

  // ----- parent chains

  /** The node `n` parent links above `start`; None once the chain has left the map or met a root. */
  ghost function ChainAt(parentOf: map<Id, Option<Id>>, start: Id, n: nat): Option<Id> {
    if n == 0 then Some(start) else
      match ChainAt(parentOf, start, n - 1)
      case Some(x) => if x in parentOf then parentOf[x] else None
      case None => None
  }

  ghost predicate InMapAt(parentOf: map<Id, Option<Id>>, start: Id, n: nat) {
    ChainAt(parentOf, start, n).Some? && ChainAt(parentOf, start, n).value in parentOf
  }

  /** Following parents from `start` never leaves the map. */
  ghost predicate Endless(parentOf: map<Id, Option<Id>>, start: Id) {
    forall n: nat :: InMapAt(parentOf, start, n)
  }

  /** `ancestor` is one or more parent links above `item`. */
  ghost predicate Ancestor(parentOf: map<Id, Option<Id>>, item: Id, ancestor: Id) {
    exists n: nat :: n >= 1 && ChainAt(parentOf, item, n) == Some(ancestor)
  }

  // ----- findings, section by section

  function When(condition: bool, finding: Finding): seq<Finding> {
    if condition then [finding] else []
  }

  const CUSTODY_OWNER: Id := "workspace-governance-control-fabric"
  const ORCHESTRATION_OWNER: Id := "operator-orchestration-service"
  const PERSIST: Id := "delivery-art.persist-canonical-artifacts"
  const PROJECT_CONTENT: Id := "delivery-art.project-canonical-content-to-openproject"
  const ORCHESTRATION_CAPABILITIES: set<Id> := {"delivery-art.author-canonical-artifacts",
                                                "delivery-art.submit-canonical-artifacts-to-wgcf",
                                                "delivery-art.project-safe-references-to-openproject"}

  function BoundaryOwners(p: Packet): seq<Id> {
    seq(|p.boundaries|, i requires 0 <= i < |p.boundaries| => p.boundaries[i].owner)
  }

  /** The capability checks run only when every boundary lists both sides. */
  predicate UsesCapabilities(p: Packet) {
    p.boundaries != [] && forall b :: b in p.boundaries ==> b.allowed.Some? && b.prohibited.Some?
  }

  function Listed(capabilities: Option<seq<Id>>): set<Id> {
    if capabilities.Some? then Elements(capabilities.value) else {}
  }

  function AllowedPairs(p: Packet): seq<(Id, set<Id>)> {
    seq(|p.boundaries|, i requires 0 <= i < |p.boundaries| => (p.boundaries[i].owner, Listed(p.boundaries[i].allowed)))
  }

  function ProhibitedPairs(p: Packet): seq<(Id, set<Id>)> {
    seq(|p.boundaries|,
        i requires 0 <= i < |p.boundaries| => (p.boundaries[i].owner, Listed(p.boundaries[i].prohibited)))
  }

  /** The capabilities under an owner's last entry. */
  function CapabilitiesOf(pairs: seq<(Id, set<Id>)>, owner: Id): set<Id> {
    if owner in LastWins(pairs) then LastWins(pairs)[owner] else {}
  }

  function PerBoundaryOwner(p: Packet): Id -> seq<Finding> {
    (owner: Id) =>
      var allowed := CapabilitiesOf(AllowedPairs(p), owner);
      When(owner != CUSTODY_OWNER && PERSIST in allowed, PersistenceElsewhere)
      + When(PROJECT_CONTENT in allowed, ContentProjected)
  }

  function CapabilityFindings(p: Packet): seq<Finding> {
    When(PERSIST !in CapabilitiesOf(AllowedPairs(p), CUSTODY_OWNER), PersistenceUnassigned)
    + When(ORCHESTRATION_CAPABILITIES - CapabilitiesOf(AllowedPairs(p), ORCHESTRATION_OWNER) != {},
           OrchestrationIncomplete)
    + When({PERSIST, PROJECT_CONTENT} - CapabilitiesOf(ProhibitedPairs(p), ORCHESTRATION_OWNER) != {},
           OrchestrationUnlimited)
    + FlatMap(Dedup(BoundaryOwners(p)), PerBoundaryOwner(p))
  }

  function BoundaryFindings(p: Packet): seq<Finding> {
    When(|BoundaryOwners(p)| != |Elements(BoundaryOwners(p))|, BoundariesRepeat)
    + if UsesCapabilities(p) then CapabilityFindings(p) else []
  }

  function PerOwnedItem(p: Packet): Id -> seq<Finding> {
    (item: Id) =>
      var parent := if item in ParentOf(p) then ParentOf(p)[item] else None;
      When(parent.Some? && parent.value !in Covered(p), UnknownParent(item))
  }

  ghost function PerWalkStart(p: Packet): Id -> seq<Finding> {
    (item: Id) => if Endless(ParentOf(p), item) then [ParentCycle] else []
  }

  ghost function OwnerMapFindings(p: Packet): seq<Finding> {
    var ids := OwnerItems(p);
    When(|ids| != |Elements(ids)|, OwnerMapRepeats)
    + When(Elements(ids) != Covered(p), OwnerMapCoverage)
    + When(ParentOf(p) != map[] && None !in ParentOf(p).Values, NoRoot)
    + FlatMap(Dedup(ids), PerOwnedItem(p))
    + FlatMap(Dedup(ids), PerWalkStart(p))
  }

  function PerPlanEntry(p: Packet): PlanEntry -> seq<Finding> {
    (entry: PlanEntry) =>
      var starts, closes := Elements(entry.startAfter), Elements(entry.closeAfter);
      When(starts * closes != {}, PrerequisiteInBoth(entry.item))
      + When((starts + closes) - Covered(p) != {}, PrerequisiteUnknown(entry.item))
      + When(entry.item in starts + closes, PrerequisiteSelf(entry.item))
  }

  ghost function PlanFindings(p: Packet): seq<Finding> {
    var ids := PlanItems(p);
    When(|ids| != |Elements(ids)|, PlanRepeats)
    + When(Elements(ids) != Covered(p), PlanCoverage)
    + FlatMap(p.plan, PerPlanEntry(p))
    + (if HasCycle(Inside(Covered(p), StartEdges(p))) then [StartCycle] else [])
    + (if HasCycle(Inside(Covered(p), ScheduleEdges(p))) then [ScheduleCycle] else [])
  }

  function PerUnitItem(p: Packet, u: LandingUnit): Id -> seq<Finding> {
    (item: Id) =>
      When(item !in Covered(p), UnitItemUnknown(u.id, item))
      + When(item in OwnerOf(p) && u.owner != OwnerOf(p)[item], UnitOwnerMismatch(u.id, item))
  }

  function PerUnit(p: Packet): LandingUnit -> seq<Finding> {
    (u: LandingUnit) => FlatMap(u.covered, PerUnitItem(p, u))
  }

  function PerSourceEdge(p: Packet): Edge -> seq<Finding> {
    (e: Edge) => When(e.source !in Elements(p.sourceNodes) || e.target !in Elements(p.sourceNodes), SourceEdgeUnknown)
  }

  ghost function UnitFindings(p: Packet): seq<Finding> {
    var ids, items := UnitIds(p), AssignedItems(p);
    When(|ids| != |Elements(ids)|, UnitIdsRepeat)
    + FlatMap(p.units, PerUnit(p))
    + When(Elements(items) != Covered(p), UnitsCoverage)
    + When(|items| != |Elements(items)|, ItemAssignedTwice)
    + When(Elements(p.sourceNodes) != SourceBacked(p), SourceNodesCoverage)
    + FlatMap(p.sourceEdges, PerSourceEdge(p))
    + (if HasCycle(Inside(Elements(p.sourceNodes), SourceOrder(p))) then [SourceCycle] else [])
  }

  /** One side of a handoff: its unit exists, its owner is that unit's, its item belongs there. */
  function HandoffUnit(p: Packet, h: Handoff, producing: bool): seq<Finding> {
    var unitId := if producing then h.producerUnit else h.consumerUnit;
    var owner := if producing then h.producer else h.consumer;
    if unitId !in UnitById(p) then [HandoffUnitUnknown(h.id, producing)]
    else When(UnitById(p)[unitId].owner != owner, HandoffUnitOwner(h.id, producing))
  }

  function HandoffItem(p: Packet, h: Handoff, producing: bool): seq<Finding> {
    var unitId := if producing then h.producerUnit else h.consumerUnit;
    var item := if producing then h.producerItem else h.consumerItem;
    if item !in Covered(p) then [HandoffItemUnknown(h.id, producing)]
    else When(Get(UnitOf(p), item) != Some(unitId), HandoffItemElsewhere(h.id, producing))
  }

  /** Both units are source nodes but no source landing walk orders them. */
  ghost predicate SourceUnordered(p: Packet, before: Id, after: Id) {
    && before in Elements(p.sourceNodes) && after in Elements(p.sourceNodes)
    && !Reaches(SourceOrder(p), before, after)
  }

  ghost function PerHandoff(p: Packet): Handoff -> seq<Finding> {
    (h: Handoff) =>
      When(h.producer == h.consumer, HandoffSameOwner(h.id))
      + HandoffUnit(p, h, true) + HandoffUnit(p, h, false)
      + HandoffItem(p, h, true) + HandoffItem(p, h, false)
      + (if SourceUnordered(p, h.producerUnit, h.consumerUnit) then [HandoffUnordered(h.id)] else [])
  }

  ghost function HandoffFindings(p: Packet): seq<Finding> {
    var ids := HandoffIds(p);
    When(|ids| != |Elements(ids)|, HandoffIdsRepeat)
    + FlatMap(p.handoffs, PerHandoff(p))
  }

  function PerGate(p: Packet): Gate -> seq<Finding> {
    (g: Gate) =>
      When(g.authorityItem !in Covered(p), GateAuthorityUnknown(g.id))
      + When(g.authorityItem in OwnerOf(p) && g.authorityOwner != OwnerOf(p)[g.authorityItem], GateOwnerMismatch(g.id))
      + When(Elements(g.affected) - Elements(UnitIds(p)) != {}, GateUnitsUnknown(g.id))
      + When(g.blocked == BeforeSourceMerge && Elements(g.affected) - SourceBacked(p) != {}, GateBlocksNonSource(g.id))
      + When(Elements(g.evidenceItems) - Covered(p) != {}, GateEvidenceUnknown(g.id))
      + When(Elements(g.evidenceItems) - PrerequisitesOf(p, g.authorityItem) != {}, GateEvidenceAbsent(g.id))
  }

  ghost function GateFindings(p: Packet): seq<Finding> {
    var ids := GateIds(p);
    When(|ids| != |Elements(ids)|, GateIdsRepeat)
    + FlatMap(p.gates, PerGate(p))
    + (if HasCycle(Inside(Elements(UnitIds(p)), CombinedUnitEdges(p))) then [CombinedCycle] else [])
  }

  function EntryEmissions(entry: PlanEntry): seq<Edge> {
    seq(|entry.emits|, i requires 0 <= i < |entry.emits| => Edge(entry.emits[i], entry.item))
  }

  const PerEntryEmissions: PlanEntry -> seq<Edge> := entry => EntryEmissions(entry)

  /** (gate, emitting work item) pairs in document order. */
  function Emissions(p: Packet): seq<Edge> {
    FlatMap(p.plan, PerEntryEmissions)
  }

  function EmittedGates(p: Packet): seq<Id> {
    Dedup(seq(|Emissions(p)|, i requires 0 <= i < |Emissions(p)| => Emissions(p)[i].source))
  }

  function PerEmittedGate(p: Packet): Id -> seq<Finding> {
    (gateId: Id) =>
      var emitters := Targets(Emissions(p), gateId);
      if |emitters| != 1 then [EmittedNotOnce(gateId)]
      else When(gateId in GateById(p) && GateById(p)[gateId].authorityItem != emitters[0], EmittedByOther(gateId))
  }

  const SECURITY_OWNER: Id := "security-architecture"

  function PerSecurityItem(p: Packet): Id -> seq<Finding> {
    (item: Id) =>
      When(Get(OwnerOf(p), item) == Some(SECURITY_OWNER) && EmittedBy(p, item) == [], SecurityItemSilent(item))
  }

  ghost function EmissionFindings(p: Packet): seq<Finding> {
    When(Elements(EmittedGates(p)) - Elements(GateIds(p)) != {}, EmitsUnknownGates)
    + When(Elements(GateIds(p)) - Elements(EmittedGates(p)) != {}, GatesNotEmitted)
    + FlatMap(EmittedGates(p), PerEmittedGate(p))
    + FlatMap(Dedup(OwnerItems(p)), PerSecurityItem(p))
  }

  function RuntimeGates(p: Packet): set<Id> {
    set g | g in p.gates && g.blocked == BeforeRuntimeActivation :: g.id
  }

  /** What every chain owes its gate, its source evidence and its commissioning units. */
  function ChainBasics(p: Packet, c: Chain, g: Gate): seq<Finding> {
    When(Elements(c.commissioning) != Elements(g.affected), ChainUnitsMismatch(c.id))
    + When(c.sourceOwner !in OwnerOf(p).Values, ChainOwnerOutside(c.id))
    + When(c.evidenceRepo != c.sourceOwner, ChainEvidenceRepo(c.id))
    + When(Some(c.evidenceRevision) != Get(LastWins(p.revisions), c.sourceOwner), ChainEvidenceRevision(c.id))
    + When(c.evidencePosture != c.posture, ChainEvidencePosture(c.id))
    + FlatMap(c.commissioning, PerCommissioningUnit(p, c))
  }

  function PerCommissioningUnit(p: Packet, c: Chain): Id -> seq<Finding> {
    (unitId: Id) =>
      When(unitId in UnitById(p) && !UnitById(p)[unitId].sourceBacked, CommissioningNotSource(c.id, unitId))
  }

  /** No authority unit means nothing to order. */
  ghost predicate AuthorityUnordered(p: Packet, g: Gate, after: Id) {
    g.authorityItem in UnitOf(p) && SourceUnordered(p, UnitOf(p)[g.authorityItem], after)
  }

  ghost function PerReadyUnit(p: Packet, c: Chain, g: Gate): Id -> seq<Finding> {
    (unitId: Id) => if AuthorityUnordered(p, g, unitId) then [AuthorityAfterCommissioning(c.id, unitId)] else []
  }

  ghost function PerCommissionedAfter(p: Packet, c: Chain, activation: Id): Id -> seq<Finding> {
    (unitId: Id) => if SourceUnordered(p, activation, unitId) then [ActivationAfterCommissioning(c.id, unitId)] else []
  }

  function PerActivationItem(p: Packet, c: Chain, g: Gate): Id -> seq<Finding> {
    (item: Id) => When(g.authorityItem !in PrerequisitesOf(p, item), ActivationNotWaiting(c.id, item))
  }

  /** What a chain that changes owner source owes its activation unit. */
  ghost function ActivationFindings(p: Packet, c: Chain, g: Gate, activation: LandingUnit): seq<Finding> {
    When(!activation.sourceBacked, ActivationNotSource(c.id))
    + When(activation.owner != c.sourceOwner, ActivationOwner(c.id))
    + When(activation.id in Elements(c.commissioning), ActivationIsCommissioning(c.id))
    + (if AuthorityUnordered(p, g, activation.id) then [AuthorityAfterActivation(c.id)] else [])
    + FlatMap(activation.covered, PerActivationItem(p, c, g))
    + FlatMap(c.commissioning, PerCommissionedAfter(p, c, activation.id))
  }

  ghost function ChainOf(p: Packet, c: Chain, g: Gate): seq<Finding> {
    ChainBasics(p, c, g) +
    match c.posture
    case SourceReady => FlatMap(c.commissioning, PerReadyUnit(p, c, g))
    case OwnerSourceChangeRequired =>
      if c.activationUnit.None? || c.activationUnit.value !in UnitById(p) then [ActivationUnknown(c.id)]
      else ActivationFindings(p, c, g, UnitById(p)[c.activationUnit.value])
  }

  ghost function PerChain(p: Packet): Chain -> seq<Finding> {
    (c: Chain) => if c.gate in GateById(p) then ChainOf(p, c, GateById(p)[c.gate]) else []
  }

  ghost function ChainFindings(p: Packet): seq<Finding> {
    When(|ChainIds(p)| != |Elements(ChainIds(p))|, ChainIdsRepeat)
    + When(|ChainGates(p)| != |Elements(ChainGates(p))|, ChainGatesRepeat)
    + When(Elements(ChainGates(p)) != RuntimeGates(p), ChainGateCoverage)
    + FlatMap(p.chains, PerChain(p))
  }

  /** Owner items of a Landing Unit and the covered items the schedule orders after one of them. */
  ghost predicate OrderedBySchedule(p: Packet, ownerItems: seq<Id>, item: Id) {
    || item in ownerItems
    || (item in Covered(p) && exists owner :: owner in ownerItems && Reaches(ScheduleEdges(p), owner, item))
  }

  /** `item` is an owner item, follows one, or sits above such an item in the parent tree. */
  ghost predicate CausallyOrdered(p: Packet, ownerItems: seq<Id>, item: Id) {
    || OrderedBySchedule(p, ownerItems, item)
    || exists below :: OrderedBySchedule(p, ownerItems, below) && Ancestor(ParentOf(p), below, item)
  }

  ghost function PerApplicable(p: Packet, c: Case, ownerItems: seq<Id>): Id -> seq<Finding> {
    (item: Id) => if CausallyOrdered(p, ownerItems, item) then [] else [CaseUnordered(c.id, item)]
  }

  ghost function PerCase(p: Packet): Case -> seq<Finding> {
    (c: Case) =>
      if c.ownerUnit !in UnitById(p) then [CaseOwnerUnknown(c.id)]
      else FlatMap(c.appliesTo, PerApplicable(p, c, UnitById(p)[c.ownerUnit].covered))
  }

  ghost function ConformanceFindings(p: Packet): seq<Finding> {
    FlatMap(p.cases, PerCase(p))
  }

  ghost function SnapshotFindings(p: Packet): seq<Finding> {
    var repos := RevisionRepos(p);
    When(|repos| != |Elements(repos)|, RevisionsRepeat)
    + When(Elements(repos) != OwnerOf(p).Values, RevisionsCoverage)
    + When(p.fingerprint != p.scope, ScopeMismatch)
  }

  /** Every finding, in the order the validator meets them. */
  ghost function ArchitectureFindings(p: Packet): seq<Finding> {
    BoundaryFindings(p)
    + OwnerMapFindings(p) + PlanFindings(p) + UnitFindings(p) + HandoffFindings(p) + GateFindings(p)
    + EmissionFindings(p)
    + (if p.version == 6 then ChainFindings(p) else [])
    + (if p.version == 5 || p.version == 6 then ConformanceFindings(p) else [])
    + SnapshotFindings(p)
  }
}
