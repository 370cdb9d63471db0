/**
 Resolving the source artifacts of a readiness request: a depth-first walk over registry references
 that loads, checks and follows active dependencies, and only loads and audits the Architecture
 Packet that another one supersedes.

 The registry does not change during a resolution. The contract validators are arbitrary.
 */
module Readiness {
  import opened Common

  type Uri = string
  type Digest = string

  datatype Ref = Ref(uri: Uri, digest: Digest)

  /** A reference field: not there, not a reference, or a reference. */
  datatype RefField = Absent | Malformed | Named(ref: Ref)

  datatype Kind = ArchitecturePacket | WorkStartRecord | ReviewPacket

  /** `digest` is the digest an artifact states, `canonicalDigest` the one its content has. */
  datatype Artifact = Artifact(kind: Kind, version: nat, uri: Uri, digest: Digest, canonicalDigest: Digest,
                               supersedes: RefField,
                               architectureReady: bool, packet: RefField, workStart: RefField, body: string)

  datatype CustodyReceipt = CustodyReceipt(uri: Uri, body: string)

  datatype Record = Record(artifact: Artifact, receipt: CustodyReceipt)

  datatype Catalog = Catalog(records: map<Digest, Record>, accepts: Artifact -> bool,
                             acceptsReceipt: CustodyReceipt -> bool)

  /** The request names a registered subject, or brings a finalization candidate that is not registered. */
  datatype Goal = Subject(ref: Ref) | Candidate(artifact: Artifact)

  datatype Level = ArchitectureReady | ImplementationReady | MergeReady | OperatingReady

  const CURRENT_VERSION: nat := 6

  /** An Architecture Packet of an older schema version is readable, but not a subject of architecture readiness. */
  predicate IsCurrentPacket(a: Artifact) {
    a.kind.ArchitecturePacket? && a.version == CURRENT_VERSION
  }

  // ----- dependencies

  /** A superseded Architecture Packet is audit lineage, not an active dependency. */
  function Lineage(a: Artifact): RefField {
    if a.kind.ArchitecturePacket? then a.supersedes else Absent
  }

  function ActiveFields(a: Artifact): seq<RefField> {
    (if !a.kind.ArchitecturePacket? && !a.supersedes.Absent? then [a.supersedes] else [])
    + (if a.kind.WorkStartRecord? && a.architectureReady then [a.packet] else [])
    + (if a.kind.ReviewPacket? then [a.workStart] else [])
  }

  predicate Genuine(a: Artifact) {
    a.digest == a.canonicalDigest
  }

  predicate Valid(c: Catalog, a: Artifact) {
    c.accepts(a) && Genuine(a)
  }

  /** Reading the digest gives an artifact with exactly this reference. */
  predicate Registered(c: Catalog, r: Ref) {
    && r.digest in c.records
    && c.records[r.digest].artifact.uri == r.uri && c.records[r.digest].artifact.digest == r.digest
  }

  function ArtifactAt(c: Catalog, r: Ref): Artifact
    requires Registered(c, r)
  {
    c.records[r.digest].artifact
  }

  function ReceiptAt(c: Catalog, r: Ref): CustodyReceipt
    requires Registered(c, r)
  {
    c.records[r.digest].receipt
  }

  // ----- what a resolution ought to cover

  /** What must be valid with the artifact, kind by kind. */
  predicate DependsOn(a: Artifact, r: Ref) {
    match a.kind
    case ArchitecturePacket => false
    case WorkStartRecord => a.supersedes == Named(r) || (a.architectureReady && a.packet == Named(r))
    case ReviewPacket => a.supersedes == Named(r) || a.workStart == Named(r)
  }

  /** What an Architecture Packet replaced: kept for audit, not depended on. */
  predicate Replaces(a: Artifact, r: Ref) {
    a.kind.ArchitecturePacket? && a.supersedes == Named(r)
  }

  /** A predecessor is optional; the sources of a later kind are not. */
  predicate WellNamed(a: Artifact) {
    && !a.supersedes.Malformed?
    && (a.kind.WorkStartRecord? && a.architectureReady ==> a.packet.Named?)
    && (a.kind.ReviewPacket? ==> a.workStart.Named?)
  }

  lemma FieldsExactly(a: Artifact)
    ensures forall r :: Named(r) in ActiveFields(a) <==> DependsOn(a, r)
    ensures forall r :: Lineage(a) == Named(r) <==> Replaces(a, r)
    ensures WellNamed(a) <==>
            !Lineage(a).Malformed? && forall i :: 0 <= i < |ActiveFields(a)| ==> ActiveFields(a)[i].Named?
  {
    forall i | 0 <= i < |ActiveFields(a)|
      ensures WellNamed(a) ==> ActiveFields(a)[i].Named?
    {
    }
    if a.kind.ReviewPacket? {
      assert ActiveFields(a)[|ActiveFields(a)| - 1] == a.workStart;
    } else if a.kind.WorkStartRecord? && a.architectureReady {
      assert ActiveFields(a)[|ActiveFields(a)| - 1] == a.packet;
    }
    if !a.kind.ArchitecturePacket? && !a.supersedes.Absent? {
      assert ActiveFields(a)[0] == a.supersedes;
    }
  }

  predicate IsRoot(goal: Goal, r: Ref) {
    match goal
    case Subject(ref) => r == ref
    case Candidate(a) => DependsOn(a, r)
  }

  predicate Follows(c: Catalog, r: Ref, s: Ref) {
    Registered(c, r) && DependsOn(ArtifactAt(c, r), s)
  }

  predicate IsPath(c: Catalog, goal: Goal, path: seq<Ref>) {
    path != [] && IsRoot(goal, path[0]) && forall i :: 0 <= i < |path| - 1 ==> Follows(c, path[i], path[i + 1])
  }

  /** Reachable over active dependencies. */
  ghost predicate Reached(c: Catalog, goal: Goal, r: Ref) {
    exists path :: IsPath(c, goal, path) && path[|path| - 1] == r
  }

  ghost predicate Walked(c: Catalog, goal: Goal, a: Artifact) {
    (goal.Candidate? && a == goal.artifact)
    || exists r :: Reached(c, goal, r) && Registered(c, r) && ArtifactAt(c, r) == a
  }

  /** The packet directly superseded by a packet that is reached. */
  ghost predicate Audited(c: Catalog, goal: Goal, r: Ref) {
    exists a :: Walked(c, goal, a) && Replaces(a, r)
  }

  ghost predicate Needed(c: Catalog, goal: Goal, r: Ref) {
    Reached(c, goal, r) || Audited(c, goal, r)
  }

  /**
   Everything reached is registered, valid and well named; everything audited is registered and genuine; no
   URI is ambiguous.
   */
  ghost predicate Resolvable(c: Catalog, goal: Goal) {
    && (forall a :: Walked(c, goal, a) ==> Valid(c, a) && WellNamed(a))
    && (forall r :: Needed(c, goal, r) ==>
          Registered(c, r) && Genuine(ArtifactAt(c, r)) && c.acceptsReceipt(ReceiptAt(c, r)))
    && (forall r, s :: Needed(c, goal, r) && Needed(c, goal, s) && r.uri == s.uri ==> r == s)
  }

  /** The artifact whose readiness is asked for; None when the reference is not registered. */
  function SubjectOf(c: Catalog, goal: Goal): Option<Artifact> {
    match goal
    case Subject(ref) => if Registered(c, ref) then Some(ArtifactAt(c, ref)) else None
    case Candidate(a) => Some(a)
  }

  lemma RootReached(c: Catalog, goal: Goal, r: Ref)
    requires IsRoot(goal, r)
    ensures Reached(c, goal, r)
  {
    assert IsPath(c, goal, [r]) && [r][|[r]| - 1] == r;
  }

  lemma FollowReached(c: Catalog, goal: Goal, r: Ref, s: Ref)
    requires Reached(c, goal, r) && Follows(c, r, s)
    ensures Reached(c, goal, s)
  {
    var path :| IsPath(c, goal, path) && path[|path| - 1] == r;
    assert IsPath(c, goal, path + [s]);
  }

  lemma WalkedReaches(c: Catalog, goal: Goal, a: Artifact, s: Ref)
    requires Walked(c, goal, a) && Named(s) in ActiveFields(a)
    ensures Reached(c, goal, s)
  {
    FieldsExactly(a);
    if goal.Candidate? && a == goal.artifact {
      RootReached(c, goal, s);
    } else {
      var r :| Reached(c, goal, r) && Registered(c, r) && ArtifactAt(c, r) == a;
      FollowReached(c, goal, r, s);
    }
  }

  /** The URIs a resolution can ever load. */
  function Universe(c: Catalog): set<Uri> {
    set d | d in c.records :: c.records[d].artifact.uri
  }

  // ----- the state of a resolution

  datatype State = State(artifacts: map<Uri, Artifact>, receipts: map<Uri, CustodyReceipt>, validated: set<Uri>)

  predicate Loaded(s: State, r: Ref) {
    r.uri in s.artifacts && s.artifacts[r.uri].digest == r.digest
  }

  predicate LoadedActive(s: State, r: Ref) {
    Loaded(s, r) && r.uri in s.validated
  }

  /** Every dependency of the artifact is where the walk must have put it. */
  predicate Covered(s: State, a: Artifact) {
    && WellNamed(a)
    && (forall i :: 0 <= i < |ActiveFields(a)| ==> LoadedActive(s, ActiveFields(a)[i].ref))
    && (Lineage(a).Named? ==> Loaded(s, Lineage(a).ref))
  }

  ghost predicate LoadedOk(c: Catalog, goal: Goal, s: State, u: Uri)
    requires u in s.artifacts
  {
    var r := Ref(u, s.artifacts[u].digest);
    && Needed(c, goal, r) && Registered(c, r) && ArtifactAt(c, r) == s.artifacts[u]
    && Genuine(s.artifacts[u]) && c.acceptsReceipt(ReceiptAt(c, r)) && ReceiptAt(c, r).uri in s.receipts
    && if u in s.validated then Reached(c, goal, r) && Valid(c, s.artifacts[u]) else Audited(c, goal, r)
  }

  /** `pending` are the artifacts whose dependencies are still being walked. */
  ghost predicate Inv(c: Catalog, goal: Goal, s: State, pending: set<Uri>) {
    && (forall u :: u in s.validated ==> u in s.artifacts)
    && (forall u :: u in s.artifacts ==> LoadedOk(c, goal, s, u))
    && (forall u :: u in s.validated && u !in pending ==> Covered(s, s.artifacts[u]))
  }

  ghost predicate Grown(s: State, t: State) {
    && (forall u :: u in s.artifacts ==> u in t.artifacts && t.artifacts[u] == s.artifacts[u])
    && (forall u :: u in s.receipts ==> u in t.receipts)
    && (forall u :: u in s.validated ==> u in t.validated)
  }

  /** A resolution never does more than once per loadable URI what it does before following it. */
  function Left(c: Catalog, s: State): nat {
    |Universe(c) - s.validated|
  }

  lemma LoadedInUniverse(c: Catalog, goal: Goal, s: State, pending: set<Uri>, u: Uri)
    requires Inv(c, goal, s, pending) && u in s.artifacts
    ensures u in Universe(c)
  {
    assert LoadedOk(c, goal, s, u);
    assert s.artifacts[u].digest in c.records;
  }

  lemma CoveredGrows(s: State, t: State, a: Artifact)
    requires Grown(s, t) && Covered(s, a)
    ensures Covered(t, a)
  {
    forall i | 0 <= i < |ActiveFields(a)|
      ensures LoadedActive(t, ActiveFields(a)[i].ref)
    {
      assert LoadedActive(s, ActiveFields(a)[i].ref);
    }
  }

  lemma AllCoveredGrows(s: State, t: State, pending: set<Uri>)
    requires Grown(s, t) && (forall u :: u in s.validated ==> u in s.artifacts)
    requires forall u :: u in s.validated && u !in pending ==> Covered(s, s.artifacts[u])
    ensures forall u :: u in s.validated && u !in pending ==> Covered(t, t.artifacts[u])
  {
    forall u | u in s.validated && u !in pending
      ensures Covered(t, t.artifacts[u])
    {
      CoveredGrows(s, t, s.artifacts[u]);
    }
  }

  function Load(c: Catalog, s: State, r: Ref): State
    requires Registered(c, r)
  {
    State(s.artifacts[r.uri := ArtifactAt(c, r)], s.receipts[ReceiptAt(c, r).uri := ReceiptAt(c, r)], s.validated)
  }

  function Mark(s: State, u: Uri): State {
    State(s.artifacts, s.receipts, s.validated + {u})
  }

  lemma LoadKeeps(c: Catalog, goal: Goal, s: State, r: Ref, pending: set<Uri>)
    requires Inv(c, goal, s, pending) && Registered(c, r) && r.uri !in s.artifacts && Audited(c, goal, r)
    requires Genuine(ArtifactAt(c, r)) && c.acceptsReceipt(ReceiptAt(c, r))
    ensures Inv(c, goal, Load(c, s, r), pending)
  {
    var t := Load(c, s, r);
    forall u | u in t.artifacts
      ensures LoadedOk(c, goal, t, u)
    {
      if u == r.uri {
        assert r == Ref(u, t.artifacts[u].digest);
      } else {
        assert LoadedOk(c, goal, s, u);
      }
    }
    AllCoveredGrows(s, t, pending);
  }

  lemma MarkKeeps(c: Catalog, goal: Goal, s: State, u: Uri, pending: set<Uri>)
    requires Inv(c, goal, s, pending) && u in s.artifacts && u !in s.validated
    requires Reached(c, goal, Ref(u, s.artifacts[u].digest)) && Valid(c, s.artifacts[u])
    ensures Inv(c, goal, Mark(s, u), pending + {u}) && Left(c, Mark(s, u)) < Left(c, s)
  {
    var t := Mark(s, u);
    forall w | w in t.artifacts
      ensures LoadedOk(c, goal, t, w)
    {
      assert LoadedOk(c, goal, s, w);
    }
    AllCoveredGrows(s, t, pending);
    LoadedInUniverse(c, goal, s, pending, u);
    FewerLeft(Universe(c), s.validated, u);
  }

  lemma FewerLeft(universe: set<Uri>, done: set<Uri>, u: Uri)
    requires u in universe && u !in done
    ensures |universe - (done + {u})| < |universe - done|
  {
    assert universe - (done + {u}) == (universe - done) - {u};
  }

  lemma NoMoreLeft(c: Catalog, s: State, t: State)
    requires Grown(s, t)
    ensures Left(c, t) <= Left(c, s)
  {
    SubsetSize(Universe(c) - t.validated, Universe(c) - s.validated);
  }

  lemma {:induction false} SubsetSize(a: set<Uri>, b: set<Uri>)
    requires a <= b
    ensures |a| <= |b|
    decreases a
  {
    if x :| x in a {
      SubsetSize(a - {x}, b - {x});
    }
  }

  lemma LoadAndMarkKeeps(c: Catalog, goal: Goal, s: State, r: Ref, pending: set<Uri>)
    requires Inv(c, goal, s, pending) && Registered(c, r) && r.uri !in s.artifacts && Reached(c, goal, r)
    requires Valid(c, ArtifactAt(c, r)) && c.acceptsReceipt(ReceiptAt(c, r))
    ensures Inv(c, goal, Mark(Load(c, s, r), r.uri), pending + {r.uri})
            && Left(c, Mark(Load(c, s, r), r.uri)) < Left(c, s)
  {
    var t := Mark(Load(c, s, r), r.uri);
    forall u | u in t.artifacts
      ensures LoadedOk(c, goal, t, u)
    {
      if u == r.uri {
        assert r == Ref(u, t.artifacts[u].digest);
      } else {
        assert LoadedOk(c, goal, s, u);
      }
    }
    AllCoveredGrows(s, t, pending);
    assert r.uri in Universe(c) by {
      assert r.digest in c.records;
    }
    FewerLeft(Universe(c), s.validated, r.uri);
  }

  lemma DoneKeeps(c: Catalog, goal: Goal, s: State, u: Uri, pending: set<Uri>)
    requires Inv(c, goal, s, pending + {u}) && u in s.artifacts && Covered(s, s.artifacts[u])
    ensures Inv(c, goal, s, pending)
  {
  }

  lemma GrownTwice(s: State, t: State, w: State)
    requires Grown(s, t) && Grown(t, w)
    ensures Grown(s, w)
  {
  }

  lemma NextResolved(s: State, t: State, w: State, refs: seq<RefField>, n: nat)
    requires n < |refs| && Grown(s, t) && Grown(t, w) && forall k :: 0 <= k < |refs| ==> refs[k].Named?
    requires (forall k :: 0 <= k < n ==> LoadedActive(t, refs[k].ref)) && LoadedActive(w, refs[n].ref)
    ensures Grown(s, w) && forall k :: 0 <= k < n + 1 ==> LoadedActive(w, refs[k].ref)
  {
    forall k | 0 <= k < n
      ensures LoadedActive(w, refs[k].ref)
    {
      assert LoadedActive(t, refs[k].ref);
    }
  }

  lemma LoadGrown(c: Catalog, s: State, r: Ref)
    requires Registered(c, r) && r.uri !in s.artifacts
    ensures Grown(s, Load(c, s, r))
  {
  }

  lemma MarkedIsWalked(c: Catalog, goal: Goal, s: State, u: Uri)
    requires u in s.artifacts && u in s.validated && LoadedOk(c, goal, s, u)
    ensures Walked(c, goal, s.artifacts[u])
  {
    var r := Ref(u, s.artifacts[u].digest);
    assert Reached(c, goal, r) && Registered(c, r) && ArtifactAt(c, r) == s.artifacts[u];
  }

  lemma LoadedIsRegistered(c: Catalog, goal: Goal, s: State, r: Ref, pending: set<Uri>)
    requires Inv(c, goal, s, pending) && Loaded(s, r)
    ensures Registered(c, r) && ArtifactAt(c, r) == s.artifacts[r.uri] && r == Ref(r.uri, s.artifacts[r.uri].digest)
  {
    assert LoadedOk(c, goal, s, r.uri);
  }

  // ----- why a refusal is right

  lemma AmbiguousFails(c: Catalog, goal: Goal, s: State, r: Ref, pending: set<Uri>)
    requires Inv(c, goal, s, pending) && Needed(c, goal, r) && r.uri in s.artifacts
             && s.artifacts[r.uri].digest != r.digest
    ensures !Resolvable(c, goal)
  {
    assert LoadedOk(c, goal, s, r.uri);
  }

  lemma NeededFails(c: Catalog, goal: Goal, r: Ref)
    requires Needed(c, goal, r) && !(Registered(c, r) && Genuine(ArtifactAt(c, r)) && c.acceptsReceipt(ReceiptAt(c, r)))
    ensures !Resolvable(c, goal)
  {
  }

  lemma ReachedFails(c: Catalog, goal: Goal, r: Ref)
    requires Reached(c, goal, r) && Registered(c, r) && !Valid(c, ArtifactAt(c, r))
    ensures !Resolvable(c, goal)
  {
    assert Walked(c, goal, ArtifactAt(c, r));
  }

  /** One resolution, with the dictionaries it fills. */
  class Resolution {
    const catalog: Catalog
    var artifacts: map<Uri, Artifact>
    var receipts: map<Uri, CustodyReceipt>
    var validated: set<Uri>

    constructor (catalog: Catalog)
      ensures this.catalog == catalog && Now() == State(map[], map[], {})
    {
      this.catalog := catalog;
      artifacts, receipts, validated := map[], map[], {};
    }

    function Now(): State
      reads this
    {
      State(artifacts, receipts, validated)
    }

    /** Loads the reference and, unless only lineage is audited, validates it and walks its dependencies. */
    method Resolve(ref: Ref, historical: bool, ghost goal: Goal, ghost pending: set<Uri>) returns (ok: bool)
      requires Inv(catalog, goal, Now(), pending)
      requires if historical then Audited(catalog, goal, ref) else Reached(catalog, goal, ref)
      modifies this
      ensures ok ==> Inv(catalog, goal, Now(), pending) && Grown(old(Now()), Now()) && Loaded(Now(), ref)
      ensures ok ==> historical || ref.uri in validated
      ensures !ok ==> !Resolvable(catalog, goal)
      decreases Left(catalog, Now()), 2
    {
      if ref.uri in artifacts {
        ok := ResolveLoaded(ref, historical, goal, pending);
      } else if historical {
        ok := AuditNew(ref, goal, pending);
      } else {
        ok := ResolveNew(ref, goal, pending);
      }
    }

    /** A URI seen before must mean the same digest; loaded as lineage, it may still have to be validated and walked. */
    method ResolveLoaded(ref: Ref, historical: bool, ghost goal: Goal, ghost pending: set<Uri>) returns (ok: bool)
      requires Inv(catalog, goal, Now(), pending) && ref.uri in artifacts
      requires if historical then Audited(catalog, goal, ref) else Reached(catalog, goal, ref)
      modifies this
      ensures ok ==> Inv(catalog, goal, Now(), pending) && Grown(old(Now()), Now()) && Loaded(Now(), ref)
      ensures ok ==> historical || ref.uri in validated
      ensures !ok ==> !Resolvable(catalog, goal)
      decreases Left(catalog, Now()), 1
    {
      var existing := artifacts[ref.uri];
      if existing.digest != ref.digest {
        AmbiguousFails(catalog, goal, Now(), ref, pending);
        return false;
      }
      if historical || ref.uri in validated {
        return true;
      }
      LoadedIsRegistered(catalog, goal, Now(), ref, pending);
      if !Valid(catalog, existing) {
        ReachedFails(catalog, goal, ref);
        return false;
      }
      MarkKeeps(catalog, goal, Now(), ref.uri, pending);
      ok := Activate(ref.uri, goal, pending);
    }

    method AuditNew(ref: Ref, ghost goal: Goal, ghost pending: set<Uri>) returns (ok: bool)
      requires Inv(catalog, goal, Now(), pending) && ref.uri !in artifacts && Audited(catalog, goal, ref)
      modifies this
      ensures ok ==> Inv(catalog, goal, Now(), pending) && Grown(old(Now()), Now()) && Loaded(Now(), ref)
      ensures !ok ==> !Resolvable(catalog, goal)
      decreases Left(catalog, Now()), 0
    {
      if !Registered(catalog, ref) || !Genuine(ArtifactAt(catalog, ref))
         || !catalog.acceptsReceipt(ReceiptAt(catalog, ref)) {
        NeededFails(catalog, goal, ref);
        return false;
      }
      LoadKeeps(catalog, goal, Now(), ref, pending);
      var artifact, receipt := ArtifactAt(catalog, ref), ReceiptAt(catalog, ref);
      artifacts, receipts := artifacts[ref.uri := artifact], receipts[receipt.uri := receipt];
      return true;
    }

    method ResolveNew(ref: Ref, ghost goal: Goal, ghost pending: set<Uri>) returns (ok: bool)
      requires Inv(catalog, goal, Now(), pending) && ref.uri !in artifacts && Reached(catalog, goal, ref)
      modifies this
      ensures ok ==>
                Inv(catalog, goal, Now(), pending) && Grown(old(Now()), Now()) && Loaded(Now(), ref)
                && ref.uri in validated
      ensures !ok ==> !Resolvable(catalog, goal)
      decreases Left(catalog, Now()), 1
    {
      if !Registered(catalog, ref) {
        NeededFails(catalog, goal, ref);
        return false;
      }
      var artifact, receipt := ArtifactAt(catalog, ref), ReceiptAt(catalog, ref);
      if !Valid(catalog, artifact) {
        ReachedFails(catalog, goal, ref);
        return false;
      }
      if !catalog.acceptsReceipt(receipt) {
        NeededFails(catalog, goal, ref);
        return false;
      }
      ok := LoadActive(ref, goal, pending);
    }

    method LoadActive(ref: Ref, ghost goal: Goal, ghost pending: set<Uri>) returns (ok: bool)
      requires Inv(catalog, goal, Now(), pending) && ref.uri !in artifacts && Reached(catalog, goal, ref)
               && Registered(catalog, ref)
      requires Valid(catalog, ArtifactAt(catalog, ref)) && catalog.acceptsReceipt(ReceiptAt(catalog, ref))
      modifies this
      ensures ok ==> Inv(catalog, goal, Now(), pending) && Grown(old(Now()), Now()) && LoadedActive(Now(), ref)
      ensures !ok ==> !Resolvable(catalog, goal)
      decreases Left(catalog, Now()), 0, 1
    {
      ghost var before := Now();
      ghost var loaded := Load(catalog, before, ref);
      LoadAndMarkKeeps(catalog, goal, before, ref, pending);
      LoadGrown(catalog, before, ref);
      var artifact, receipt := ArtifactAt(catalog, ref), ReceiptAt(catalog, ref);
      artifacts, receipts := artifacts[ref.uri := artifact], receipts[receipt.uri := receipt];
      assert Now() == loaded;
      ok := Activate(ref.uri, goal, pending);
      if ok {
        GrownTwice(before, loaded, Now());
      }
    }

    /** Marks a loaded artifact as validated and walks its dependencies. */
    method Activate(uri: Uri, ghost goal: Goal, ghost pending: set<Uri>) returns (ok: bool)
      requires uri in artifacts && Inv(catalog, goal, Mark(Now(), uri), pending + {uri})
      requires Left(catalog, Mark(Now(), uri)) < Left(catalog, Now())
      modifies this
      ensures ok ==> Inv(catalog, goal, Now(), pending) && Grown(old(Now()), Now()) && uri in validated
      ensures !ok ==> !Resolvable(catalog, goal)
      decreases Left(catalog, Now()), 0, 0
    {
      ghost var before := Now();
      var artifact := artifacts[uri];
      MarkedIsWalked(catalog, goal, Mark(before, uri), uri);
      validated := validated + {uri};
      assert Now() == Mark(before, uri);
      ok := WalkDependencies(artifact, goal, pending + {uri});
      if ok {
        GrownTwice(before, Mark(before, uri), Now());
        DoneKeeps(catalog, goal, Now(), uri, pending);
      }
    }

    /** Audits the lineage first, then resolves the active dependencies in order. */
    method WalkDependencies(a: Artifact, ghost goal: Goal, ghost pending: set<Uri>) returns (ok: bool)
      requires Inv(catalog, goal, Now(), pending) && Walked(catalog, goal, a)
      modifies this
      ensures ok ==> Inv(catalog, goal, Now(), pending) && Grown(old(Now()), Now()) && Covered(Now(), a)
      ensures !ok ==> !Resolvable(catalog, goal)
      decreases Left(catalog, Now()), 4
    {
      ghost var before := Now();
      FieldsExactly(a);
      if Lineage(a).Malformed? {
        return false;
      }
      if Lineage(a).Named? {
        assert Audited(catalog, goal, Lineage(a).ref);
        ok := Resolve(Lineage(a).ref, true, goal, pending);
        if !ok {
          return;
        }
      }
      if exists i :: 0 <= i < |ActiveFields(a)| && !ActiveFields(a)[i].Named? {
        return false;
      }
      NoMoreLeft(catalog, before, Now());
      ghost var mid := Now();
      ok := ResolveAll(a, goal, pending);
      if ok {
        GrownTwice(before, mid, Now());
      }
    }

    method ResolveAll(a: Artifact, ghost goal: Goal, ghost pending: set<Uri>) returns (ok: bool)
      requires Inv(catalog, goal, Now(), pending) && Walked(catalog, goal, a)
      requires forall i :: 0 <= i < |ActiveFields(a)| ==> ActiveFields(a)[i].Named?
      modifies this
      ensures ok ==> Inv(catalog, goal, Now(), pending) && Grown(old(Now()), Now())
      ensures ok ==> forall i :: 0 <= i < |ActiveFields(a)| ==> LoadedActive(Now(), ActiveFields(a)[i].ref)
      ensures !ok ==> !Resolvable(catalog, goal)
      decreases Left(catalog, Now()), 3
    {
      ghost var before := Now();
      var refs := ActiveFields(a);
      for i := 0 to |refs|
        invariant Inv(catalog, goal, Now(), pending) && Grown(before, Now())
        invariant forall k :: 0 <= k < i ==> LoadedActive(Now(), refs[k].ref)
      {
        WalkedReaches(catalog, goal, a, refs[i].ref);
        NoMoreLeft(catalog, before, Now());
        ghost var mid := Now();
        ok := Resolve(refs[i].ref, false, goal, pending);
        if !ok {
          return;
        }
        NextResolved(before, mid, Now(), refs, i);
      }
      ok := true;
    }

    /**
     The whole resolution: of a registered subject, or of a candidate's dependencies. The level is
     looked at last, when everything is loaded.
     */
    method ResolveContext(goal: Goal, level: Level) returns (ok: bool)
      requires Now() == State(map[], map[], {})
      modifies this
      ensures ok <==>
              Resolvable(catalog, goal) && SubjectOf(catalog, goal).Some?
              && (level.ArchitectureReady? ==> IsCurrentPacket(SubjectOf(catalog, goal).value))
      ensures ok ==>
                forall u :: u in validated <==> u in artifacts && Reached(catalog, goal, Ref(u, artifacts[u].digest))
      ensures ok ==> forall r :: Reached(catalog, goal, r) ==> Loaded(Now(), r) && r.uri in validated
      ensures ok ==> forall r :: Needed(catalog, goal, r) <==> Loaded(Now(), r)
      ensures ok ==> forall u :: u in artifacts ==>
                       var r := Ref(u, artifacts[u].digest);
                       Registered(catalog, r) && artifacts[u] == ArtifactAt(catalog, r)
    {
      var subject;
      if goal.Subject? {
        RootReached(catalog, goal, goal.ref);
        ok := Resolve(goal.ref, false, goal, {});
        if !ok {
          return;
        }
        LoadedIsRegistered(catalog, goal, Now(), goal.ref, {});
        subject := artifacts[goal.ref.uri];
      } else {
        if !Valid(catalog, goal.artifact) {
          assert Walked(catalog, goal, goal.artifact);
          return false;
        }
        ok := WalkDependencies(goal.artifact, goal, {});
        if !ok {
          return;
        }
        subject := goal.artifact;
      }
      Complete(catalog, goal, Now());
      ok := !level.ArchitectureReady? || IsCurrentPacket(subject);
    }
  }

  /** Nothing is pending and every root is there. */
  ghost predicate Finished(c: Catalog, goal: Goal, s: State) {
    && Inv(c, goal, s, {})
    && (match goal
        case Subject(ref) => Loaded(s, ref) && ref.uri in s.validated
        case Candidate(a) => Covered(s, a) && Valid(c, a))
  }

  lemma RootLoaded(c: Catalog, goal: Goal, s: State, r: Ref)
    requires Finished(c, goal, s) && IsRoot(goal, r)
    ensures LoadedActive(s, r)
  {
    if goal.Candidate? {
      FieldsExactly(goal.artifact);
      var i :| 0 <= i < |ActiveFields(goal.artifact)| && ActiveFields(goal.artifact)[i] == Named(r);
    }
  }

  lemma FollowedLoaded(c: Catalog, goal: Goal, s: State, r: Ref, t: Ref)
    requires Inv(c, goal, s, {}) && LoadedActive(s, r) && Follows(c, r, t)
    ensures LoadedActive(s, t)
  {
    LoadedIsRegistered(c, goal, s, r, {});
    var a := s.artifacts[r.uri];
    assert Covered(s, a);
    FieldsExactly(a);
    var i :| 0 <= i < |ActiveFields(a)| && ActiveFields(a)[i] == Named(t);
  }

  lemma {:induction false} PathCovered(c: Catalog, goal: Goal, s: State, path: seq<Ref>)
    requires Finished(c, goal, s) && IsPath(c, goal, path)
    ensures LoadedActive(s, path[|path| - 1])
    decreases |path|
  {
    var n := |path| - 1;
    if n == 0 {
      RootLoaded(c, goal, s, path[0]);
    } else {
      var front := path[..n];
      assert front[|front| - 1] == path[n - 1];
      PathCovered(c, goal, s, front);
      assert Follows(c, path[n - 1], path[n - 1 + 1]);
      FollowedLoaded(c, goal, s, path[n - 1], path[n]);
    }
  }

  lemma ReachedLoaded(c: Catalog, goal: Goal, s: State, r: Ref)
    requires Finished(c, goal, s) && Reached(c, goal, r)
    ensures Loaded(s, r) && r.uri in s.validated
  {
    var path :| IsPath(c, goal, path) && path[|path| - 1] == r;
    PathCovered(c, goal, s, path);
  }

  lemma WalkedCovered(c: Catalog, goal: Goal, s: State, a: Artifact)
    requires Finished(c, goal, s) && Walked(c, goal, a)
    ensures Covered(s, a) && Valid(c, a)
  {
    if !(goal.Candidate? && a == goal.artifact) {
      var r :| Reached(c, goal, r) && Registered(c, r) && ArtifactAt(c, r) == a;
      ReachedLoaded(c, goal, s, r);
      assert LoadedOk(c, goal, s, r.uri);
      assert Ref(r.uri, s.artifacts[r.uri].digest) == r;
    }
  }

  lemma NeededLoaded(c: Catalog, goal: Goal, s: State, r: Ref)
    requires Finished(c, goal, s) && Needed(c, goal, r)
    ensures Loaded(s, r)
  {
    if Reached(c, goal, r) {
      ReachedLoaded(c, goal, s, r);
    } else {
      var a :| Walked(c, goal, a) && Replaces(a, r);
      WalkedCovered(c, goal, s, a);
    }
  }

  /** A finished resolution has seen exactly what it ought to cover, and all of it was in order. */
  lemma Complete(c: Catalog, goal: Goal, s: State)
    requires Finished(c, goal, s)
    ensures Resolvable(c, goal)
    ensures forall u :: u in s.validated <==> u in s.artifacts && Reached(c, goal, Ref(u, s.artifacts[u].digest))
    ensures forall r :: Reached(c, goal, r) ==> Loaded(s, r) && r.uri in s.validated
    ensures forall r :: Needed(c, goal, r) <==> Loaded(s, r)
    ensures forall u :: u in s.artifacts ==>
              var r := Ref(u, s.artifacts[u].digest);
              Registered(c, r) && s.artifacts[u] == ArtifactAt(c, r)
  {
    forall a | Walked(c, goal, a)
      ensures Valid(c, a) && WellNamed(a)
    {
      WalkedCovered(c, goal, s, a);
    }
    forall r | Reached(c, goal, r)
      ensures Loaded(s, r) && r.uri in s.validated
    {
      ReachedLoaded(c, goal, s, r);
    }
    forall r | Needed(c, goal, r)
      ensures Loaded(s, r) && Registered(c, r) && Genuine(ArtifactAt(c, r)) && c.acceptsReceipt(ReceiptAt(c, r))
    {
      NeededLoaded(c, goal, s, r);
      assert LoadedOk(c, goal, s, r.uri) && Ref(r.uri, s.artifacts[r.uri].digest) == r;
    }
    forall r | Loaded(s, r)
      ensures Needed(c, goal, r)
    {
      assert LoadedOk(c, goal, s, r.uri) && Ref(r.uri, s.artifacts[r.uri].digest) == r;
    }
    forall u | u in s.artifacts
      ensures var r := Ref(u, s.artifacts[u].digest); Registered(c, r) && s.artifacts[u] == ArtifactAt(c, r)
    {
      assert LoadedOk(c, goal, s, u);
    }
    forall u | u in s.validated
      ensures u in s.artifacts && Reached(c, goal, Ref(u, s.artifacts[u].digest))
    {
      assert LoadedOk(c, goal, s, u);
    }
  }

  /** The reference is registered and leads to a valid artifact. */
  ghost predicate ValidAt(c: Catalog, r: Ref) {
    Registered(c, r) && Valid(c, ArtifactAt(c, r))
  }

  lemma DependencyIsValid(c: Catalog, goal: Goal, a: Artifact, r: Ref)
    requires Resolvable(c, goal) && Walked(c, goal, a) && DependsOn(a, r)
    ensures ValidAt(c, r) && Walked(c, goal, ArtifactAt(c, r))
  {
    FieldsExactly(a);
    WalkedReaches(c, goal, a, r);
    assert Needed(c, goal, r);
    assert Walked(c, goal, ArtifactAt(c, r));
  }

  /**
   What an accepted resolution has found valid behind a Review Packet: its work-start record, the packet
   that record builds on when it claims architecture readiness, and the predecessors of either record.
   */
  lemma ReviewRestsOnSources(c: Catalog, goal: Goal, review: Artifact)
    requires Resolvable(c, goal) && Walked(c, goal, review) && review.kind.ReviewPacket?
    ensures review.workStart.Named? && ValidAt(c, review.workStart.ref)
    ensures review.supersedes.Named? ==> ValidAt(c, review.supersedes.ref)
    ensures var start := ArtifactAt(c, review.workStart.ref);
            start.kind.WorkStartRecord? ==>
              && (start.architectureReady ==> start.packet.Named? && ValidAt(c, start.packet.ref))
              && (start.supersedes.Named? ==> ValidAt(c, start.supersedes.ref))
  {
    DependencyIsValid(c, goal, review, review.workStart.ref);
    if review.supersedes.Named? {
      DependencyIsValid(c, goal, review, review.supersedes.ref);
    }
    var start := ArtifactAt(c, review.workStart.ref);
    if start.kind.WorkStartRecord? && start.architectureReady {
      DependencyIsValid(c, goal, start, start.packet.ref);
    }
    if start.kind.WorkStartRecord? && start.supersedes.Named? {
      DependencyIsValid(c, goal, start, start.supersedes.ref);
    }
  }
}
