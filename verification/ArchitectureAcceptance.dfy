/** Activation chains, conformance and snapshot, and the exact condition under which a packet is accepted. */
module ArchitectureAcceptance {
  import opened Common
  import opened Graphs
  import opened ArchitecturePacket
  import opened ArchitectureConditions
  import opened ArchitectureLookups
  import opened ArchitectureExactness
  import opened ArchitectureGates
  import opened ArchitectureTheorems

  // ----- runtime activation chains

  lemma ChainsRepeatExactly(p: Packet)
    ensures |ChainIds(p)| != |Elements(ChainIds(p))| <==> ChainsTwice(p)
    ensures |ChainGates(p)| != |Elements(ChainGates(p))| <==> ChainsGateTwice(p)
  {
    RepeatsExactly(ChainIds(p));
    RepeatsExactly(ChainGates(p));
    assert forall i :: 0 <= i < |p.chains| ==> ChainIds(p)[i] == p.chains[i].id && ChainGates(p)[i] == p.chains[i].gate;
  }

  lemma ChainCoverage(p: Packet)
    ensures Elements(ChainGates(p)) != RuntimeGates(p) <==> !ActivationsChained(p)
  {
    forall gateId
      ensures gateId in ChainGates(p) <==> HasChain(p, gateId)
    {
      if c :| c in p.chains && c.gate == gateId {
        var i :| 0 <= i < |p.chains| && p.chains[i] == c;
        assert ChainGates(p)[i] == gateId;
      }
    }
    assert forall gateId :: gateId in RuntimeGates(p) <==> GuardsActivation(p, gateId);
    SameSet(ChainGates(p), RuntimeGates(p));
  }

  lemma OwnersOfItems(p: Packet, repo: Id)
    ensures repo in OwnerOf(p).Values <==> IsOwner(p, repo)
  {
    if repo in OwnerOf(p).Values {
      var item :| item in OwnerOf(p) && OwnerOf(p)[item] == repo;
      OwnersExactly(p, item, repo);
    }
    if item :| Owns(p, repo, item) {
      OwnersExactly(p, item, repo);
      assert OwnerOf(p)[item] in OwnerOf(p).Values;
    }
  }

  lemma CommissioningExactly(p: Packet, c: Chain, f: Finding)
    ensures f in FlatMap(c.commissioning, PerCommissioningUnit(p, c)) <==>
            f.CommissioningNotSource? && f.id == c.id && Commissions(p, c, f.unitId)
  {
    Among(c.commissioning, PerCommissioningUnit(p, c), f);
    if f.CommissioningNotSource? {
      NotSourceExactly(p, f.unitId);
      assert f in PerCommissioningUnit(p, c)(f.unitId) <==>
             f.id == c.id && f.unitId in UnitById(p) && !UnitById(p)[f.unitId].sourceBacked;
    }
  }

  lemma NotSourceExactly(p: Packet, unitId: Id)
    ensures unitId in UnitById(p) && !UnitById(p)[unitId].sourceBacked <==>
            exists u :: Declared(p, unitId, u) && !u.sourceBacked
  {
    if unitId in UnitById(p) {
      UnitsExactly(p, unitId, UnitById(p)[unitId]);
    }
    if u :| Declared(p, unitId, u) && !u.sourceBacked {
      UnitsExactly(p, unitId, u);
    }
  }

  lemma BasicParts(p: Packet, c: Chain, g: Gate, f: Finding)
    ensures f in ChainBasics(p, c, g) <==>
            || (f == ChainUnitsMismatch(c.id) && Elements(c.commissioning) != Elements(g.affected))
            || (f == ChainOwnerOutside(c.id) && c.sourceOwner !in OwnerOf(p).Values)
            || (f == ChainEvidenceRepo(c.id) && c.evidenceRepo != c.sourceOwner)
            || (f == ChainEvidenceRevision(c.id)
                && Some(c.evidenceRevision) != Get(LastWins(p.revisions), c.sourceOwner))
            || (f == ChainEvidencePosture(c.id) && c.evidencePosture != c.posture)
            || f in FlatMap(c.commissioning, PerCommissioningUnit(p, c))
  {
    InSix(When(Elements(c.commissioning) != Elements(g.affected), ChainUnitsMismatch(c.id)),
          When(c.sourceOwner !in OwnerOf(p).Values, ChainOwnerOutside(c.id)),
          When(c.evidenceRepo != c.sourceOwner, ChainEvidenceRepo(c.id)),
          When(Some(c.evidenceRevision) != Get(LastWins(p.revisions), c.sourceOwner), ChainEvidenceRevision(c.id)),
          When(c.evidencePosture != c.posture, ChainEvidencePosture(c.id)),
          FlatMap(c.commissioning, PerCommissioningUnit(p, c)), f);
  }

  lemma BasicsExactly(p: Packet, c: Chain, g: Gate, f: Finding)
    ensures f in ChainBasics(p, c, g) <==> BasicsOwed(p, c, g, f)
  {
    BasicParts(p, c, g, f);
    SameSet(c.commissioning, Elements(g.affected));
    OwnersOfItems(p, c.sourceOwner);
    RevisionsExactly(p, c.sourceOwner, c.evidenceRevision);
    CommissioningExactly(p, c, f);
  }

  lemma AuthorityExactly(p: Packet, g: Gate, after: Id)
    ensures AuthorityUnordered(p, g, after) <==> AuthorityLate(p, g, after)
  {
    if g.authorityItem in UnitOf(p) {
      PlacesExactly(p, g.authorityItem, UnitOf(p)[g.authorityItem]);
      UnorderedExactly(p, UnitOf(p)[g.authorityItem], after);
    }
    if unitId :| Placed(p, g.authorityItem, unitId) && Unordered(p, unitId, after) {
      PlacesExactly(p, g.authorityItem, unitId);
    }
  }

  lemma ReadyExactly(p: Packet, c: Chain, g: Gate, f: Finding)
    ensures f in FlatMap(c.commissioning, PerReadyUnit(p, c, g)) <==> ReadyOwes(p, c, g, f)
  {
    Among(c.commissioning, PerReadyUnit(p, c, g), f);
    if f.AuthorityAfterCommissioning? {
      AuthorityExactly(p, g, f.unitId);
      assert f in PerReadyUnit(p, c, g)(f.unitId) <==> f.id == c.id && AuthorityUnordered(p, g, f.unitId);
    }
  }

  lemma WaitingExactly(p: Packet, c: Chain, g: Gate, u: LandingUnit, f: Finding)
    ensures f in FlatMap(u.covered, PerActivationItem(p, c, g)) <==>
            f.ActivationNotWaiting? && f.id == c.id && f.item in u.covered && !Awaits(p, f.item, g.authorityItem)
  {
    Among(u.covered, PerActivationItem(p, c, g), f);
    if f.ActivationNotWaiting? {
      AwaitsExactly(p, f.item, g.authorityItem);
      assert f in PerActivationItem(p, c, g)(f.item) <==>
             f.id == c.id && g.authorityItem !in PrerequisitesOf(p, f.item);
    }
  }

  lemma CommissionedExactly(p: Packet, c: Chain, activation: Id, f: Finding)
    ensures f in FlatMap(c.commissioning, PerCommissionedAfter(p, c, activation)) <==>
            f.ActivationAfterCommissioning? && f.id == c.id && f.unitId in c.commissioning
            && Unordered(p, activation, f.unitId)
  {
    Among(c.commissioning, PerCommissionedAfter(p, c, activation), f);
    if f.ActivationAfterCommissioning? {
      UnorderedExactly(p, activation, f.unitId);
      assert f in PerCommissionedAfter(p, c, activation)(f.unitId) <==>
             f.id == c.id && SourceUnordered(p, activation, f.unitId);
    }
  }

  lemma ActivationParts(p: Packet, c: Chain, g: Gate, u: LandingUnit, f: Finding)
    ensures f in ActivationFindings(p, c, g, u) <==>
            || (f == ActivationNotSource(c.id) && !u.sourceBacked)
            || (f == ActivationOwner(c.id) && u.owner != c.sourceOwner)
            || (f == ActivationIsCommissioning(c.id) && u.id in c.commissioning)
            || (f == AuthorityAfterActivation(c.id) && AuthorityUnordered(p, g, u.id))
            || f in FlatMap(u.covered, PerActivationItem(p, c, g))
            || f in FlatMap(c.commissioning, PerCommissionedAfter(p, c, u.id))
  {
    InSix(When(!u.sourceBacked, ActivationNotSource(c.id)), When(u.owner != c.sourceOwner, ActivationOwner(c.id)),
          When(u.id in Elements(c.commissioning), ActivationIsCommissioning(c.id)),
          if AuthorityUnordered(p, g, u.id) then [AuthorityAfterActivation(c.id)] else [],
          FlatMap(u.covered, PerActivationItem(p, c, g)), FlatMap(c.commissioning, PerCommissionedAfter(p, c, u.id)),
          f);
  }

  lemma ActivationExactly(p: Packet, c: Chain, g: Gate, u: LandingUnit, f: Finding)
    ensures f in ActivationFindings(p, c, g, u) <==> ActivationOwes(p, c, g, u, f)
  {
    ActivationParts(p, c, g, u, f);
    AuthorityExactly(p, g, u.id);
    WaitingExactly(p, c, g, u, f);
    CommissionedExactly(p, c, u.id, f);
  }

  ghost function ChangeFindings(p: Packet, c: Chain, g: Gate): seq<Finding> {
    if c.activationUnit.None? || c.activationUnit.value !in UnitById(p) then [ActivationUnknown(c.id)]
    else ActivationFindings(p, c, g, UnitById(p)[c.activationUnit.value])
  }

  lemma ChangesExactly(p: Packet, c: Chain, g: Gate, f: Finding)
    ensures f in ChangeFindings(p, c, g) <==> ChangeOwes(p, c, g, f)
  {
    if c.activationUnit.Some? {
      UnitKnown(p, c.activationUnit.value);
      forall u
        ensures Get(UnitById(p), c.activationUnit.value) == Some(u) <==> Activates(p, c, u)
      {
        UnitsExactly(p, c.activationUnit.value, u);
      }
      if c.activationUnit.value in UnitById(p) {
        var u := UnitById(p)[c.activationUnit.value];
        assert Activates(p, c, u);
        ActivationExactly(p, c, g, u, f);
      }
    }
  }

  lemma ChainExactly(p: Packet, c: Chain, g: Gate, f: Finding)
    ensures f in ChainOf(p, c, g) <==> ChainOwes(p, c, g, f)
  {
    BasicsExactly(p, c, g, f);
    match c.posture
    case SourceReady =>
      ReadyExactly(p, c, g, f);
    case OwnerSourceChangeRequired =>
      ChangesExactly(p, c, g, f);
      assert ChainOf(p, c, g) == ChainBasics(p, c, g) + ChangeFindings(p, c, g);
  }

  lemma EachChainExactly(p: Packet, f: Finding)
    ensures f in FlatMap(p.chains, PerChain(p)) <==> SomeChainOwes(p, f)
  {
    Among(p.chains, PerChain(p), f);
    if c :| c in p.chains && f in PerChain(p)(c) {
      var g := GateById(p)[c.gate];
      GatesExactly(p, c.gate, g);
      ChainExactly(p, c, g, f);
    }
    if c, g :| c in p.chains && Guarded(p, c.gate, g) && ChainOwes(p, c, g, f) {
      GatesExactly(p, c.gate, g);
      ChainExactly(p, c, g, f);
      assert f in PerChain(p)(c);
    }
  }

  lemma ChainParts(p: Packet, f: Finding)
    ensures f in ChainFindings(p) <==>
            || (f == ChainIdsRepeat && |ChainIds(p)| != |Elements(ChainIds(p))|)
            || (f == ChainGatesRepeat && |ChainGates(p)| != |Elements(ChainGates(p))|)
            || (f == ChainGateCoverage && Elements(ChainGates(p)) != RuntimeGates(p))
            || f in FlatMap(p.chains, PerChain(p))
  {
    InFour(When(|ChainIds(p)| != |Elements(ChainIds(p))|, ChainIdsRepeat),
           When(|ChainGates(p)| != |Elements(ChainGates(p))|, ChainGatesRepeat),
           When(Elements(ChainGates(p)) != RuntimeGates(p), ChainGateCoverage), FlatMap(p.chains, PerChain(p)), f);
  }

  lemma ChainsExactly(p: Packet, f: Finding)
    ensures f in ChainFindings(p) <==> ChainDue(p, f)
  {
    ChainParts(p, f);
    ChainsRepeatExactly(p);
    ChainCoverage(p);
    EachChainExactly(p, f);
  }

  // ----- conformance and snapshot

  lemma ScheduledExactly(p: Packet, u: LandingUnit, item: Id)
    ensures OrderedBySchedule(p, u.covered, item) <==> Scheduled(p, u, item)
  {
    forall e
      ensures e in ScheduleSteps(p) <==> e in ScheduleEdges(p)
    {
      ScheduleMembers(p, e);
    }
    forall owned
      ensures Joined(ScheduleSteps(p), owned, item) <==> Reaches(ScheduleEdges(p), owned, item)
    {
      JoinedExactly(ScheduleSteps(p), ScheduleEdges(p), owned, item);
    }
  }

  lemma OutcomesExactly(p: Packet, u: LandingUnit, item: Id)
    ensures CausallyOrdered(p, u.covered, item) <==> Outcome(p, u, item)
  {
    forall x
      ensures OrderedBySchedule(p, u.covered, x) <==> Scheduled(p, u, x)
      ensures Ancestor(ParentOf(p), x, item) <==> Joined(ParentSteps(p), x, item)
    {
      ScheduledExactly(p, u, x);
      AncestorsExactly(p, x, item);
    }
  }

  lemma OutsideExactly(p: Packet, unitId: Id, item: Id)
    ensures unitId in UnitById(p) && !CausallyOrdered(p, UnitById(p)[unitId].covered, item) <==>
            OutsideOutcomes(p, unitId, item)
  {
    if unitId in UnitById(p) {
      UnitsExactly(p, unitId, UnitById(p)[unitId]);
      OutcomesExactly(p, UnitById(p)[unitId], item);
    }
    if u :| Declared(p, unitId, u) && !Outcome(p, u, item) {
      UnitsExactly(p, unitId, u);
    }
  }

  lemma CaseExactly(p: Packet, c: Case, f: Finding)
    ensures f in PerCase(p)(c) <==> CaseOwes(p, c, f)
  {
    UnitKnown(p, c.ownerUnit);
    if c.ownerUnit in UnitById(p) {
      var owned := UnitById(p)[c.ownerUnit].covered;
      Among(c.appliesTo, PerApplicable(p, c, owned), f);
      if f.CaseUnordered? {
        OutsideExactly(p, c.ownerUnit, f.item);
        assert f in PerApplicable(p, c, owned)(f.item) <==> f.id == c.id && !CausallyOrdered(p, owned, f.item);
      }
    } else if f.CaseUnordered? {
      OutsideExactly(p, c.ownerUnit, f.item);
    }
  }

  lemma CasesExactly(p: Packet, f: Finding)
    ensures f in ConformanceFindings(p) <==> CaseDue(p, f)
  {
    Among(p.cases, PerCase(p), f);
    if c :| c in p.cases && f in PerCase(p)(c) {
      CaseExactly(p, c, f);
    }
    if c :| c in p.cases && CaseOwes(p, c, f) {
      CaseExactly(p, c, f);
    }
  }

  lemma RevisionsRepeatExactly(p: Packet)
    ensures |RevisionRepos(p)| != |Elements(RevisionRepos(p))| <==> RevisesTwice(p)
  {
    RepeatsExactly(RevisionRepos(p));
    assert forall i :: 0 <= i < |p.revisions| ==> RevisionRepos(p)[i] == p.revisions[i].0;
  }

  lemma RevisionsCover(p: Packet)
    ensures Elements(RevisionRepos(p)) != OwnerOf(p).Values <==> !OwnersRevised(p)
  {
    forall repo
      ensures repo in RevisionRepos(p) <==> HasRevision(p, repo)
      ensures repo in OwnerOf(p).Values <==> IsOwner(p, repo)
    {
      OwnersOfItems(p, repo);
      if r :| r in p.revisions && r.0 == repo {
        var i :| 0 <= i < |p.revisions| && p.revisions[i] == r;
        assert RevisionRepos(p)[i] == repo;
      }
    }
    SameSet(RevisionRepos(p), OwnerOf(p).Values);
  }

  lemma SnapshotExactly(p: Packet, f: Finding)
    ensures f in SnapshotFindings(p) <==> SnapshotDue(p, f)
  {
    RevisionsRepeatExactly(p);
    RevisionsCover(p);
  }

  // ----- the verdict

  /** A finding is reported exactly when the packet's entries make it due. */
  lemma FindingsExactly(p: Packet, f: Finding)
    ensures f in ArchitectureFindings(p) <==> Due(p, f)
  {
    BoundariesExactly(p, f);
    OwnerMapExactly(p, f);
    PlanExactly(p, f);
    LandingUnitsExactly(p, f);
    HandoffsExactly(p, f);
    HumanGatesExactly(p, f);
    GateEmissionsExactly(p, f);
    ChainsExactly(p, f);
    CasesExactly(p, f);
    SnapshotExactly(p, f);
    InTen(BoundaryFindings(p), OwnerMapFindings(p), PlanFindings(p), UnitFindings(p), HandoffFindings(p),
          GateFindings(p), EmissionFindings(p), if p.version == 6 then ChainFindings(p) else [],
          if p.version == 5 || p.version == 6 then ConformanceFindings(p) else [], SnapshotFindings(p), f);
  }

  /** A packet is accepted exactly when its entries make no finding due. */
  lemma AcceptedExactly(p: Packet)
    ensures Accepted(p) <==> 3 <= p.version <= 6 && forall f :: !Due(p, f)
  {
    if Accepted(p) {
      forall f
        ensures !Due(p, f)
      {
        NotDue(p, f);
      }
    }
    if Dedup(ArchitectureFindings(p)) != [] {
      FindingsExactly(p, Dedup(ArchitectureFindings(p))[0]);
    }
  }

  lemma NotDue(p: Packet, f: Finding)
    requires Accepted(p)
    ensures !Due(p, f)
  {
    FindingsExactly(p, f);
    assert f !in Dedup(ArchitectureFindings(p));
  }

  lemma UnitKeepsItem(p: Packet, u: LandingUnit, item: Id)
    requires u in p.units && item in u.covered
    requires !SomeUnitOwes(p, UnitItemUnknown(u.id, item)) && !SomeUnitOwes(p, UnitOwnerMismatch(u.id, item))
    ensures item in p.covered && !OwnedElsewhere(p, item, u.owner)
  {
    assert !UnitOwes(p, u, UnitItemUnknown(u.id, item)) && !UnitOwes(p, u, UnitOwnerMismatch(u.id, item));
  }

  lemma NoUnitOwes(p: Packet, f: Finding)
    requires Accepted(p)
    ensures !SomeUnitOwes(p, f)
  {
    NotDue(p, f);
  }

  lemma AcceptedOwners(p: Packet)
    requires Accepted(p)
    ensures OwnersCovered(p)
  {
    NotDue(p, OwnerMapCoverage);
  }

  /** In an accepted packet every item a Landing Unit covers is a covered item the unit's owner owns. */
  lemma UnitsOwnTheirItems(p: Packet, u: LandingUnit, item: Id)
    requires Accepted(p) && u in p.units && item in u.covered
    ensures item in p.covered && Owns(p, u.owner, item)
  {
    NoUnitOwes(p, UnitItemUnknown(u.id, item));
    NoUnitOwes(p, UnitOwnerMismatch(u.id, item));
    UnitKeepsItem(p, u, item);
    AcceptedOwners(p);
    ItemHasOwner(p, item);
  }

  lemma ItemHasOwner(p: Packet, item: Id)
    requires HasOwner(p, item)
    ensures exists owner :: Owns(p, owner, item)
  {
    var o :| o in p.owners && o.item == item;
    var i :| 0 <= i < |p.owners| && p.owners[i] == o;
    var pairs := seq(|p.owners|, j requires 0 <= j < |p.owners| => (p.owners[j].item, p.owners[j].owner));
    assert pairs[i].0 == item;
    LastWinsKeys(pairs, item);
    OwnersExactly(p, item, OwnerOf(p)[item]);
  }
}
