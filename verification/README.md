# Verification of the control fabric core

This project models the parts of the workspace governance control fabric whose promises span many
operations, runs or crashes, and proves them. It covers ten areas, one group of files each.

- **Architecture packets** (`Graphs`, `ArchitecturePacket`, `ParentChains`, `ArchitectureValidator`,
  `ArchitectureTheorems`): the worklist graph checks, the semantic validator for schema versions 3 to 6,
  whose sections collect findings loop by loop over lookup tables given as functions, and what an empty
  error list means: executable orders of work items and Landing Units, gates emitted by their authority.
  `ArchitectureConditions` says, finding by finding, what makes it due; `ArchitectureLookups`,
  `ArchitectureExactness`, `ArchitectureGates` and `ArchitectureAcceptance` prove that nothing else is reported.
- **Canonical JSON** (`Unicode`, `CanonicalJson`, `JsonReader`, `JsonRoundTrip`, `JsonIdentity`,
  `JsonDictionaries`): the integer-only subset of RFC 8785, sections 3.2.2 and 3.2.3, a strict reader
  for the RFC 8259 grammar, and their round trip on bytes. `JsonGrammar` gives the derivations of RFC 8259
  and what they mean; `JsonReading` and `JsonAccepting` prove the reader exact against it, and
  `JsonShortest` the printer.
- **Instance records** (`InstanceRecords`, `InstanceRecordRuns`, `InstanceIntake`, `InstanceHistory`):
  compare-and-set commits that interleave at the operation lookup, the row read and the write, idempotent
  replay, the locked intake protocol on top, and history pages read while commits go on.
- **Artifact registry** (`ArtifactContents`, `StoredContent`, `ContentAcceptance`, `ArtifactRegistry`,
  `ArtifactRegistryReading`, `ArtifactRegistryRuns`, `ArtifactRegistryClock`, `ArtifactRegistryAlone`): which
  requests and which stored rows are accepted, registration calls interleaving at nine points, generation
  chains, forced-monotone times, and the promise that everything registered reads back as the content it
  was registered with.
- **Readiness** (`Readiness`): the dependency walk with its lineage exception.
- **Controlled-proof receipts** (`ProofRequests`, `OwnerReceipts`, `OwnerReceiptRuns`,
  `OwnerReceiptContents`): the three-file commit that may die between any two writes, and what it attests.
- **Controlled-proof bindings** (`ProofBindings`): two files, two locks, any interleaving, any crash.
- **Owner execution** (`OwnerExecution`, `EvidencePromotion`): fencing a process group before a result
  leaves, and promoting or quarantining its evidence.
- **Governance history** (`GovernanceHistory`, `HistoryCompleteness`, `HistoryExactness`,
  `HistoryTruncation`, `HistorySources`, `HistoryLosses`): merged pages with an opaque cursor, and exactly
  when they miss nothing.
- **Retention** (`LedgerExports`, `LedgerRuns`, `LedgerExactness`, `LedgerLosses`, `LedgerRetention`): ledger
  compaction by runs that overlap at every file operation, and file retention.

`Common` holds a few shared definitions. `dafny verify dfyconfig.toml` checks everything.

## How the code is represented

- Code that changes things step by step is a method with its loops, or a class whose methods update
  fields; concurrent code is a state machine whose events may come in any order. Each method is proved
  equal to a function or an exact condition, and the theorems are about those.
- Digests are represented by what they digest, so equal digests mean equal contents. The artifact
  registry is the exception: there the hash is an arbitrary function into texts of the digest's shape,
  and only the contents of the run at hand are assumed free of collisions.
- Policies, contract validators, identifier patterns and token functions are arbitrary functions.
- Each database read is an atomic step, and so are the writes of one transaction, with the unique keys of
  the migrations; locks and crashes are explicit where the promise depends on them.

## Where the code falls short of its promise

- A session that does not start on a whole millisecond can strand a receipt: its time is cut below the
  session start, and no retry can complete or load it (`OwnerReceiptRuns.MisalignedSessionWitness`; the
  exact condition is in `OwnerReceiptRuns.RetryCompletes` and `OwnerReceiptRuns.AlignedSessionCompletes`).
- An activity result without a well-formed receipt reference is refused only after the observation is
  written, and every retry is refused too (`OwnerReceiptRuns.UnnamedValidationWitness`).
- A cancelled owner execution may leave its process group unconfirmed, in two ways: the execution broke
  and a cancellation arrived in the cleanup, or a cancellation arrived in a drain whose time was up
  (`OwnerExecution.CancelledUnfencedExactly`, `OwnerExecution.CancelledUnfencedWitness`,
  `OwnerExecution.CancelledInDrainWitness`). The second also answers a deadline with a cancellation
  (`OwnerExecution.TimeoutLostInDrain`), and a refused signal hides a cancellation
  (`OwnerExecution.CancellationIsHeard`).
- Governance history loses fractional rows of a second when a page ends at that second's whole-second
  row: the cursor's text sorts after them while the query keeps only earlier times
  (`HistoryCompleteness.CompleteExactly`).
- The history query lists rows of one time by native identifier, while pages and cursors go by the history
  identifier, whose base64 text does not keep that order (`governance_history.py`, lines 478-485 and 721-727). Where a
  scan cuts a run of equal times, the rows beyond the cut can then belong above rows already served, and
  are lost (`HistoryLosses.TieIsLost`, `HistoryLosses.FilteredTieIsLost`); and a source with 500 rows at one
  time and more below stops there (`HistoryLosses.OneTimeIsLost`). Both exactly:
  `HistoryTruncation.LongSourceExactly`.
- A filter that matches rarely can make a page walk past the end of one source's scan onto older records
  of another, and the cursor then skips what was not scanned (`HistoryLosses.FilteredPagesSkip`; exactly
  when, for any store: `HistoryExactness.CompleteForEveryFilter`).
- A retention run without compaction, or with one that fails, can leave a full ledger above its budget
  (`LedgerRetention.BudgetAfterRetention`).
- A compaction reads the ledger, writes the export and writes the ledger back without a lock. Whatever is
  appended in between is lost, the event of an overlapping run included (`LedgerLosses.OverlapLoses`,
  `LedgerRetention.OneRunExactly`; exactly when: `LedgerExactness.ExactlyOnce`), and a run that stops after
  its export leaves the exported lines in the ledger too.
- Two retention runs that plan at the same time for the same ledger share an export name, and the second
  export replaces the first (`LedgerLosses.SameTimeLoses`, `LedgerExports.OverwriteLoses`).

## Model

| member | source | states |
|---|---|---|
| Graphs.GraphIsAcyclic | packages/control_fabric_core/src/control_fabric_core/delivery_art_contracts.py:63-80 | on every finite node set and edge list, self-loops and repeated edges included, the in-degree worklist answers true exactly when the edges inside the node set contain no cycle; it terminates |
| Graphs.GraphHasPath | packages/control_fabric_core/src/control_fabric_core/delivery_art_contracts.py:83-101 | the worklist search answers true exactly when a non-empty path of edges leads from start to target; it terminates |
| Graphs.AcyclicHasOrder | packages/control_fabric_core/src/control_fabric_core/delivery_art_contracts.py:63-80 | a graph the check accepts has a linear order of all its nodes that respects every edge |
| Graphs.OrderedIsAcyclic | packages/control_fabric_core/src/control_fabric_core/delivery_art_contracts.py:63-80 | a graph with such an order has no cycle, so acceptance and orderability are the same |
| Graphs.ReachesRespectsOrder | packages/control_fabric_core/src/control_fabric_core/delivery_art_contracts.py:83-101 | whatever the path search connects comes in that direction in every order that respects the edges |
| ParentChains.WalkRepeats | packages/control_fabric_core/src/control_fabric_core/delivery_art_contracts.py:214-223 | the parent walk reports a repetition exactly when the parent links above the start never end |
| ParentChains.AncestorsOf | packages/control_fabric_core/src/control_fabric_core/delivery_art_contracts.py:869-878 | the ancestor walk ends on every parent map, cyclic ones included, and collects exactly the items on the parent chain |
| ParentChains.EndsSomewhere | packages/control_fabric_core/src/control_fabric_core/delivery_art_contracts.py:207-223 | when no walk repeats, the chain above an item meets a root or leaves the map after finitely many links |
| ArchitectureValidator.ArchitectureSemanticErrors | packages/control_fabric_core/src/control_fabric_core/delivery_art_contracts.py:119-903 | for schema versions 3 to 6 the errors returned are exactly the findings that the declarative conditions of every section give, in order and each once: cycles, endless parent walks and missing landing paths stand for what the worklists find |
| ArchitectureValidator.CheckOwnerMap | packages/control_fabric_core/src/control_fabric_core/delivery_art_contracts.py:187-223 | owner-map findings: one entry per item, exact cover, a root, known parents, walks that end |
| ArchitectureValidator.CheckPlan | packages/control_fabric_core/src/control_fabric_core/delivery_art_contracts.py:293-360 | execution-plan findings, with both schedules checked for cycles by graph reachability, not by worklist |
| ArchitectureValidator.CheckUnits | packages/control_fabric_core/src/control_fabric_core/delivery_art_contracts.py:362-415 | Landing Unit findings: unique ids, exact and single assignment of items, owners, the source-landing graph |
| ArchitectureValidator.CheckHandoffs | packages/control_fabric_core/src/control_fabric_core/delivery_art_contracts.py:417-485 | handoff findings; a source-backed handoff is unordered exactly when no landing path leads from producer to consumer |
| ArchitectureValidator.CheckGates | packages/control_fabric_core/src/control_fabric_core/delivery_art_contracts.py:487-556 | human-gate findings, evidence prerequisites of the authority item included |
| ArchitectureTheorems.EmissionsExactly | packages/control_fabric_core/src/control_fabric_core/delivery_art_contracts.py:580-626 | CheckEmissions finds nothing exactly when every emitted gate is declared, every declared gate is emitted once and by its authority item, and every security-owned item emits one |
| ArchitectureValidator.CheckChains | packages/control_fabric_core/src/control_fabric_core/delivery_art_contracts.py:628-838 | activation-chain findings of version 6, both postures |
| ArchitectureValidator.OrderedOutcomes | packages/control_fabric_core/src/control_fabric_core/delivery_art_contracts.py:855-878 | the set built in place is exactly the owner items, what the schedule puts downstream of them, and all parent-chain ancestors of either |
| ArchitectureValidator.CheckConformance | packages/control_fabric_core/src/control_fabric_core/delivery_art_contracts.py:840-887 | conformance findings of versions 5 and 6 |
| ArchitectureTheorems.CycleIffUnorderable | packages/control_fabric_core/src/control_fabric_core/delivery_art_contracts.py:63-80 | the edges inside a node set are free of cycles exactly when some linear order of the nodes respects them |
| ArchitectureTheorems.WorkItemsHaveOrder | packages/control_fabric_core/src/control_fabric_core/delivery_art_contracts.py:308-360 | an accepted packet has one linear order of all covered work items that respects every start and every close prerequisite |
| ArchitectureTheorems.ParentsEndAtRoot | packages/control_fabric_core/src/control_fabric_core/delivery_art_contracts.py:202-223 | in an accepted packet the parent chain of every covered item ends at a root inside the owner map |
| ArchitectureTheorems.CustodyIsExclusive | packages/control_fabric_core/src/control_fabric_core/delivery_art_contracts.py:131-185 | in an accepted packet whose boundaries list capabilities the control fabric is the one owner that may persist artifacts, nobody may project their content, and the orchestration owner has a boundary that grants its part and bars it from both |
| ArchitectureTheorems.LandingUnitsHaveOrder | packages/control_fabric_core/src/control_fabric_core/delivery_art_contracts.py:397-415 | an accepted packet has one single linear order of all Landing Units that respects source landings, cross-unit prerequisites and early human gates together |
| ArchitectureTheorems.OrderRespectsLanding | packages/control_fabric_core/src/control_fabric_core/delivery_art_contracts.py:558-578 | every order that respects the combined edges respects all three sources of order, for every plan entry and every early gate |
| ArchitectureTheorems.HandoffsGoForward | packages/control_fabric_core/src/control_fabric_core/delivery_art_contracts.py:417-485 | an accepted handoff leads from the unit of its producing item to the differently owned unit of its consuming item, and between source-backed units the producing one strictly precedes in every order that respects the combined edges |
| ArchitectureTheorems.AuthorityEmitsGate | packages/control_fabric_core/src/control_fabric_core/delivery_art_contracts.py:580-613 | in an accepted packet a plan entry emits a declared gate exactly when it is the entry of the authority item, and that entry exists and names the gate once |
| ArchitectureTheorems.SecurityItemsEmit | packages/control_fabric_core/src/control_fabric_core/delivery_art_contracts.py:614-626 | in an accepted packet every security-owned work item is the authority of a declared gate and emits it |
| ArchitectureTheorems.AuthorityBeforeActivation | packages/control_fabric_core/src/control_fabric_core/delivery_art_contracts.py:754-822 | in an accepted version 6 packet, for a chain that needs an owner source change and whose activation unit covers an item, every order respecting the combined edges puts the gate authority's unit strictly before the activation unit, source-backed or not |
| ArchitectureTheorems.ActivationBeforeCommissioning | packages/control_fabric_core/src/control_fabric_core/delivery_art_contracts.py:823-838 | and the activation unit strictly before every commissioning unit |
| ArchitectureTheorems.ConformanceIsExact | packages/control_fabric_core/src/control_fabric_core/delivery_art_contracts.py:840-887 | with a known evidence-owner unit an applicable item is rejected exactly when it is no owner item, not downstream of one, and no parent-chain ancestor of either |
| ArchitectureAcceptance.FindingsExactly | packages/control_fabric_core/src/control_fabric_core/delivery_art_contracts.py:119-903 | for any packet and any finding: it is reported exactly when the entries of the packet make it due, said of boundaries, owner entries, plan entries, units, handoffs, gates, chains, cases and revisions themselves; a cycle is due when no order respects the steps they describe, a missing path when no walk of those steps exists, and the last entry of a repeated key counts |
| ArchitectureAcceptance.AcceptedExactly | packages/control_fabric_core/src/control_fabric_core/delivery_art_contracts.py:119-903 | a packet of schema versions 3 to 6 is accepted if and only if its entries make no finding due |
| ArchitectureAcceptance.UnitsOwnTheirItems | packages/control_fabric_core/src/control_fabric_core/delivery_art_contracts.py:384-391 | in an accepted packet every item a Landing Unit covers is a covered item that the unit's owner owns |
| ArchitectureGates.CombinedCycles | packages/control_fabric_core/src/control_fabric_core/delivery_art_contracts.py:558-578 | the combined topology is cyclic exactly when no order of all Landing Units respects source landings, prerequisites between items placed in different units and early gates |
| ArchitectureExactness.CyclesExactly | packages/control_fabric_core/src/control_fabric_core/delivery_art_contracts.py:214-223 | some parent walk repeats exactly when some item is reached from itself by the parent links of the last owner entries |
| Unicode.DecodeEncoded | packages/control_fabric_core/src/control_fabric_core/canonical_json.py:14-20 | strict UTF-8 decoding undoes encoding of surrogate-free text |
| Unicode.EncodeDecoded | packages/control_fabric_core/src/control_fabric_core/canonical_json.py:14-20 | the strict decoder accepts only encodings of surrogate-free text: encoding what it decoded gives the bytes back |
| Unicode.Utf16OrderIsTotal | packages/control_fabric_core/src/control_fabric_core/canonical_json.py:93-99 | comparing UTF-16 big-endian key bytes is comparing code units (RFC 8785 section 3.2.3), and distinct surrogate-free keys are ordered |
| CanonicalJson.ErrorFreeIsClean | packages/control_fabric_core/src/control_fabric_core/canonical_json.py:47-73 | a value has no canonicalization errors exactly when all strings and keys are surrogate-free, all numbers safe integers and nothing else occurs |
| CanonicalJson.ListErrors | packages/control_fabric_core/src/control_fabric_core/canonical_json.py:47-73 | collecting violations in place, items and members in order, gives exactly the violations the domain defines, each with its path |
| CanonicalJson.SortFieldsKeeps | packages/control_fabric_core/src/control_fabric_core/canonical_json.py:93-100 | sorting members for print neither loses nor adds one |
| JsonReader.UniqueObject | packages/control_fabric_core/src/control_fabric_core/canonical_json.py:25-31 | filling the dictionary pair by pair succeeds with exactly the pairs read, or stops because a key repeats |
| JsonReader.StrictJsonLoads | packages/control_fabric_core/src/control_fabric_core/canonical_json.py:14-44 | whatever the strict reader accepts has unique keys in every object and no canonicalization error; duplicate keys, floats, unsafe integers and lone surrogates are refused |
| JsonAccepting.AcceptsExactly | packages/control_fabric_core/src/control_fabric_core/canonical_json.py:14-44 | the strict reader accepts bytes with a value if and only if they are the UTF-8 encoding of a text that the RFC 8259 grammar derives for that value, with any white space between tokens and any escapes, no key repeated, and the value lies in the canonical domain |
| JsonReading.ReadsTree | packages/control_fabric_core/src/control_fabric_core/canonical_json.py:14-44 | each derivation of the grammar is read as the value it spells, whatever white space stands between its tokens |
| JsonRoundTrip.ReadValue | packages/control_fabric_core/src/control_fabric_core/canonical_json.py:14-101 | the RFC 8259 reader, put in front of the canonical text of any clean value and any delimiter, consumes exactly that text |
| JsonRoundTrip.CanonicalIsPlain | packages/control_fabric_core/src/control_fabric_core/canonical_json.py:76-101 | the canonical text of a clean value is a derivation of the grammar for that value with members in sorted order |
| JsonShortest.CanonicalExactly | packages/control_fabric_core/src/control_fabric_core/canonical_json.py:76-101 | the canonical bytes are the UTF-8 encoding of the one shortest grammar text of the value whose members ascend in UTF-16 code units and whose escapes use lower-case hexadecimal (RFC 8785 sections 3.2.2 and 3.2.3) |
| JsonShortest.CanonicalLiterals | packages/control_fabric_core/src/control_fabric_core/canonical_json.py:76-101 | null, true and false are printed as these very bytes |
| JsonIdentity.ReadAfterPrint | packages/control_fabric_core/src/control_fabric_core/canonical_json.py:14-101 | for every value without canonicalization errors the strict reader applied to its canonical bytes gives the value back, up to key order |
| JsonIdentity.BytesIdentifyValues | packages/control_fabric_core/src/control_fabric_core/canonical_json.py:76-101 | canonical bytes agree exactly when the values are equal: the printer is injective up to key order and blind to insertion order |
| JsonIdentity.PrintAfterRead | packages/control_fabric_core/src/control_fabric_core/canonical_json.py:14-101 | printing what was read gives the same bytes exactly when the bytes were canonical |
| JsonIdentity.PrintedInCodeUnitOrder | packages/control_fabric_core/src/control_fabric_core/canonical_json.py:93-100 | members of a printed object follow each other in ascending code-unit order |
| JsonIdentity.MinusZeroIsNotCanonical | packages/control_fabric_core/src/control_fabric_core/canonical_json.py:14-44 | "-0" is read as 0 and printed as "0": reading then printing is no identity outside canonical bytes |
| InstanceRecords.InstanceRecordStore.Commit | packages/control_fabric_core/src/control_fabric_core/instance_records.py:213-299 | a commit that nothing overtakes changes the three tables exactly as reading, checking and writing in one go |
| InstanceRecordRuns.PrepareEstablishes | packages/control_fabric_core/src/control_fabric_core/instance_records.py:225-262 | a commit comes to write only after the expected version and digest matched the row, the policy granted evidence for the current record, and the provider was unchanged; its version is the next one |
| InstanceRecordRuns.StepKeeps | packages/control_fabric_core/src/control_fabric_core/instance_records.py:213-299 | each step of any interleaving of operation lookups, row reads and writes keeps every integrity condition and loses nothing stored |
| InstanceRecordRuns.RevisionChains | packages/control_fabric_core/src/control_fabric_core/instance_records.py:176-299 | in every reachable database a record's revisions are exactly versions 1 to head, each receipt's previous is the preceding version and its digest, and the row equals the head revision |
| InstanceRecordRuns.RevisionsMatchOperations | packages/control_fabric_core/src/control_fabric_core/instance_records.py:159-174 | revisions and operations are in bijection |
| InstanceRecordRuns.ProviderNeverChanges | packages/control_fabric_core/src/control_fabric_core/instance_records.py:262-299 | a provider binding never changes afterwards and is held by no other record of the installation |
| InstanceRecordRuns.CurrentReads | packages/control_fabric_core/src/control_fabric_core/instance_records.py:176-198 | in a reachable database the current record always reads back; no integrity check fails |
| InstanceRecordRuns.ReplayAnswers | packages/control_fabric_core/src/control_fabric_core/instance_records.py:200-211 | a stored operation replays to its own caller and command exactly, and conflicts for anyone and anything else |
| InstanceRecordRuns.RetryReturnsFirstOutcome | packages/control_fabric_core/src/control_fabric_core/instance_records.py:213-299 | an exact retry of any stored operation, after any further run, returns the first outcome |
| InstanceRecordRuns.RacingCommitAnswers | packages/control_fabric_core/src/control_fabric_core/instance_records.py:272-299 | of two commits under one idempotency key that had both prepared their write before either was stored, the second to write never writes: it gets the first outcome when both create the record by the same command and caller, and a conflict otherwise, an identical update included, however much is committed before its recovery read |
| InstanceRecordRuns.LateReaderConflicts | packages/control_fabric_core/src/control_fabric_core/instance_records.py:222-299 | a commit that had looked up its key before another commit under that key was stored, but reads the row after, conflicts when the commands are the same, whoever sent them and even when they create the record; a different command conflicts at the latest when it comes to write |
| InstanceRecordRuns.CommitsExactly | packages/control_fabric_core/src/control_fabric_core/instance_records.py:213-299 | in a reachable database a valid command with a free key is accepted exactly when it expects the head as it is, the policy grants evidence for that head, its provider binding is well formed, kept and unshared, and its AI decision is unused; it then stores the next version with a receipt that names the head, the actor, the action, the time and the evidence, in three new rows and nothing else; otherwise nothing is stored and the answer says what failed first |
| InstanceRecordRuns.PreparesExactly | packages/control_fabric_core/src/control_fabric_core/instance_records.py:225-262 | the reading half comes to write exactly when the expected stamp is the head's, the policy grants evidence and the binding is well formed and kept |
| InstanceRecordRuns.WritesExactly | packages/control_fabric_core/src/control_fabric_core/instance_records.py:262-299 | and the writing half writes exactly when the row is still as expected and key, AI decision and, for a new record, provider are free |
| InstanceRecordRuns.ReadsExactly | packages/control_fabric_core/src/control_fabric_core/instance_records.py:145-198 | whatever the tables hold, a record is read exactly when its row, the revision of that version and the operation its receipt names agree on value, digests, version, actor, AI decision, command and provider; any disagreement is unavailable |
| InstanceIntake.StoreStep | packages/control_fabric_core/src/control_fabric_core/instance_repository_intake.py:220-326 | every step of the locked accept and readback protocol is a step of the record store or leaves the store alone |
| InstanceIntake.RetriesGetFirstOutcome | packages/control_fabric_core/src/control_fabric_core/instance_repository_intake.py:220-326 | once an operation is stored, after any further run every accept of its caller and every readback with the same input gets that first result, and any other caller or input a conflict |
| InstanceIntake.SettledLookupKeepsState | packages/control_fabric_core/src/control_fabric_core/instance_repository_intake.py:220-249 | a lookup that settles the call changes nothing stored |
| InstanceIntake.StoredRecordWasPlanned | packages/control_fabric_core/src/control_fabric_core/instance_repository_intake.py:272-326 | every stored record is the policy's plan, made in some context and at some time, for exactly the revision it replaced |
| InstanceIntake.OneCallPerKey | packages/control_fabric_core/src/control_fabric_core/instance_repository_intake.py:220-249 | while a call holds its key's lock no other call on the key runs, and an accept that has prepared its write still finds the key free |
| InstanceIntake.AcceptsExactly | packages/control_fabric_core/src/control_fabric_core/instance_repository_intake.py:272-326 | an accept that finds its key free and unlocked and meets nobody stores its plan exactly when the policy plans for the current head, plans the same again inside the commit, the operator saw that head, and provider binding and AI decision are free; the stored command carries the operator's input, the plan and both attestations |
| InstanceHistory.HistoryIsComplete | packages/control_fabric_core/src/control_fabric_core/instance_records.py:372-398 | on a reachable state the stored-history read never reports an incomplete or broken chain: it lists consecutive versions downward with the right cursor |
| InstanceHistory.ServedIsChain | packages/control_fabric_core/src/control_fabric_core/instance_records.py:372-398 | whatever the tables hold, a page that is served is a whole stretch of consecutive versions from its start, each verified against its operation and linked to the version below by number and digest, with the cursor that continues it |
| InstanceHistory.TrimToFit | packages/control_fabric_core/src/control_fabric_core/instance_record_reads.py:104-116 | popping records and rewriting the cursor ends at the longest prefix, with its own cursor, that fits the response bound |
| InstanceHistory.ServedPageCovers | packages/control_fabric_core/src/control_fabric_core/instance_record_reads.py:104-116 | for any cursor a served page lists consecutive versions from its start and its cursor continues right below its last |
| InstanceHistory.ServesWhenOneFits | packages/control_fabric_core/src/control_fabric_core/instance_record_reads.py:104-116 | the bounded reader answers exactly when some non-empty prefix fits, or nothing is left below version 1 |
| InstanceHistory.PagesCoverHistory | packages/control_fabric_core/src/control_fabric_core/instance_record_reads.py:104-116 | pages followed to the end from the head or any cursor, read at different moments with commits in between and trimming, give the versions from there down to 1, each exactly once |
| InstanceHistory.CursorsEnd | packages/control_fabric_core/src/control_fabric_core/instance_record_reads.py:104-116 | following cursors ends: while the last page still has a cursor, fewer pages were read than versions lie below the start |
| ArtifactContents.ProjectionOfRebuilt | packages/control_fabric_core/src/control_fabric_core/artifact_registry.py:660-681 | projecting the rebuilt durable artifact gives exactly the content it was rebuilt from, and so the same canonical bytes |
| ArtifactContents.ProjectionFixes | packages/control_fabric_core/src/control_fabric_core/canonical_json.py:116-126 | content whose integrity block has no digest and whose custody block at most names the superseded artifact is its own projection |
| ArtifactContents.AcceptedIsPlaced | packages/control_fabric_core/src/control_fabric_core/artifact_registry.py:302-393 | accepted content has such an integrity block and such a custody block, with a well-formed superseded reference |
| ContentAcceptance.RequestsExactly | packages/control_fabric_core/src/control_fabric_core/artifact_registry.py:302-393 | a request is accepted with its findings exactly when it is a JSON object of just content and digest within the size limit, and the content is canonical, within its limit, of the stated digest, of an approved type with identifiers of their patterns, with the prescribed integrity block and a custody block that names at most a superseded artifact, and of the current schema if it is a new architecture packet |
| StoredContent.EnvelopeFits | packages/control_fabric_core/src/control_fabric_core/artifact_registry.py:1067-1083 | the request printed around accepted content for re-checking always stays within the request limit |
| StoredContent.StoredContentReads | packages/control_fabric_core/src/control_fabric_core/artifact_registry.py:627-658 | the bytes stored for an accepted request read as canonical content, and that content passes the stored-content check with the type, identifiers and superseded reference found at registration |
| ArtifactRegistryRuns.GenerationsAreOneToN | packages/control_fabric_core/src/control_fabric_core/artifact_registry.py:418-562 | over every interleaving and any clocks a subject's generations are 1 to n, each exactly once |
| ArtifactRegistryRuns.EachSupersedesItsPredecessor | packages/control_fabric_core/src/control_fabric_core/artifact_registry.py:955-1064 | each generation supersedes exactly its predecessor, its receipt the predecessor's receipt, and predecessor artifact, storage, receipt and artifact times strictly increase, although the head that fixed the times was read outside the insert transaction |
| ArtifactRegistryClock.StoredByClock | packages/control_fabric_core/src/control_fabric_core/artifact_registry.py:1046-1064 | over every interleaving each entry's storage time is what its own call read from the clock, or one past the artifact time of the superseded entry when the clock was not later; receipt and artifact times follow one and two seconds after |
| ArtifactRegistryAlone.RegistersExactly | packages/control_fabric_core/src/control_fabric_core/artifact_registry.py:422-562 | after any run a call with an accepted request for a digest not yet registered, which meets nobody, ends in at most eight steps: it adds exactly the next generation with its receipt when the request supersedes the subject's head and the object has a real version, is a conflict when it does not supersede the head, and an integrity error when the version is empty or null |
| ArtifactRegistryAlone.AnswersAgain | packages/control_fabric_core/src/control_fabric_core/artifact_registry.py:422-440 | after any run a request for a registered digest is answered at its lookup with what is registered, and changes nothing |
| ArtifactRegistryRuns.RegisteredReads | packages/control_fabric_core/src/control_fabric_core/artifact_registry.py:627-795 | every registered entry passes the lineage, content and receipt checks under the same service identity, and its rebuilt artifact projects onto exactly the stored content |
| ArtifactRegistryReading.ReadsExactly | packages/control_fabric_core/src/control_fabric_core/artifact_registry.py:627-831 | whatever tables and object store hold, a digest reads as an artifact exactly when entry, line, receipt and content agree on it; an unknown digest is not found, one without a receipt unavailable, anything else an integrity error |
| ArtifactRegistryReading.ReusesExactly | packages/control_fabric_core/src/control_fabric_core/artifact_registry.py:976-995 | a stored entry answers a request again exactly when delivery, type, identifier and predecessor are the same and the entry reads |
| ArtifactRegistryRuns.ReadsForever | packages/control_fabric_core/src/control_fabric_core/artifact_registry.py:479-484 | what a digest reads as never changes again |
| ArtifactRegistryRuns.AnswersAreReads | packages/control_fabric_core/src/control_fabric_core/artifact_registry.py:422-477 | every successful registration, created or reused, answers what reading its digest gives ever after |
| ArtifactRegistryRuns.AlreadyRegistered | packages/control_fabric_core/src/control_fabric_core/artifact_registry.py:976-995 | in every run, registering content that is already there is never a conflict and answers what reading gives |
| ArtifactRegistry.RegistryTables.InsertRegistryState | packages/control_fabric_core/src/control_fabric_core/artifact_registry.py:489-562 | the insert transaction that nothing overtakes adds exactly the entry and receipt rows of the state machine's two events, or nothing when the digest is there, the head is another, or a unique key is taken |
| ArtifactRegistryRuns.NextStateKeeps | packages/control_fabric_core/src/control_fabric_core/artifact_registry.py:422-562 | each step of a call, races on the unique keys included, keeps the registry's invariant |
| Readiness.Resolution.ResolveContext | packages/control_fabric_core/src/control_fabric_core/delivery_art_readiness.py:362-435 | a resolution succeeds exactly when everything reachable over active dependencies is registered, valid and well named, every directly superseded packet is registered and genuine, no URI is ambiguous, and an architecture-ready request has a current packet as its subject; then the validated artifacts are exactly those reached and the loaded ones add only the superseded packets, in whatever order they are met; the recursion terminates |
| Readiness.Resolution.WalkDependencies | packages/control_fabric_core/src/control_fabric_core/delivery_art_readiness.py:437-478 | a walk covers lineage and active dependencies, or some needed artifact is out of order |
| Readiness.Complete | packages/control_fabric_core/src/control_fabric_core/delivery_art_readiness.py:362-478 | a finished walk has loaded exactly what is needed and validated exactly what is reached |
| Readiness.ReachedLoaded | packages/control_fabric_core/src/control_fabric_core/delivery_art_readiness.py:362-478 | every artifact reachable over active dependencies ends up loaded and validated |
| Readiness.ReviewRestsOnSources | packages/control_fabric_core/src/control_fabric_core/delivery_art_readiness.py:437-478 | behind every review packet of an accepted resolution its work-start record is registered and valid, with the architecture packet that record builds on when it claims architecture readiness, and the predecessors of both |
| Readiness.FieldsExactly | packages/control_fabric_core/src/control_fabric_core/delivery_art_readiness.py:437-478 | the references walked are, kind by kind, exactly the dependencies: a work-start record's packet only when it is architecture ready, a review packet's work start, and the predecessor of anything but a packet, whose predecessor is lineage |
| OwnerReceipts.EvidenceStore.CommitOwnerReceipt | packages/control_fabric_core/src/control_fabric_core/controlled_proof.py:474-621 | writing file by file and dying after any number of writes leaves exactly that prefix of the planned writes, and answers only when alive |
| OwnerReceiptRuns.WrittenOnce | packages/control_fabric_core/src/control_fabric_core/controlled_proof.py:474-621 | over any sequence of attempts and crashes no file is written twice: a receipt is written at most once and never changes |
| OwnerReceiptRuns.OneReceipt | packages/control_fabric_core/src/control_fabric_core/controlled_proof.py:511-522 | all successful attempts under one key return one and the same receipt |
| OwnerReceiptRuns.RetryIsExact | packages/control_fabric_core/src/control_fabric_core/controlled_proof.py:524-621 | once an observation is stored an uncrashed attempt succeeds exactly when it brings the same inputs, the stored time lies in the window and the activity result names its validation receipt |
| OwnerReceiptRuns.LoadIsExact | packages/control_fabric_core/src/control_fabric_core/controlled_proof.py:1054-1203 | a stored receipt passes its check exactly when its recorded time lies in the window |
| OwnerReceiptContents.ReceiptSaysWhatHappened | packages/control_fabric_core/src/control_fabric_core/controlled_proof.py:1206-1272 | a receipt stored in any run is about its own request, cites each source of the owner context with that source's own digest, and the observation, the activity result and the validation receipt with theirs, and nothing else; its verdict and time are those of the stored observation, which some attempt of the run made at that millisecond |
| OwnerReceiptContents.LoadedIsGenuine | packages/control_fabric_core/src/control_fabric_core/controlled_proof.py:1054-1203 | whatever the files hold, a receipt is loaded only when subject, window, citations and the observation beside it all agree with the request |
| OwnerReceiptRuns.RetryCompletes | packages/control_fabric_core/src/control_fabric_core/controlled_proof.py:474-621 | after any run an uncrashed retry with the first observation's inputs, at any time, completes with the first recorded time and passes the stored-receipt check, exactly when the truncated time is not before the session and the result names its validation receipt |
| OwnerReceiptRuns.AlignedSessionCompletes | packages/control_fabric_core/src/control_fabric_core/controlled_proof.py:474-621 | in a session that starts on a whole millisecond, with a result that names its validation receipt, every uncrashed retry of the first inputs completes, whenever the observation was made and whatever was attempted since |
| OwnerReceiptRuns.Stranded | packages/control_fabric_core/src/control_fabric_core/controlled_proof.py:524-621 | once an observation is stored whose time was cut below the session start, or whose result names no validation receipt, no attempt of that execution succeeds any more and none of its receipts loads |
| OwnerReceiptRuns.MisalignedSessionWitness | packages/control_fabric_core/src/control_fabric_core/controlled_proof.py:524-621 | a session start at 500 and an observation at 700 microseconds: the first attempt answers with a receipt, every later attempt fails and the stored receipt does not load |
| OwnerReceiptRuns.UnnamedValidationWitness | packages/control_fabric_core/src/control_fabric_core/controlled_proof.py:524-621 | a result without a validation receipt is refused after its observation is stored, and so is every later attempt, in an aligned session too |
| OwnerReceiptRuns.AlignmentIsExact | packages/control_fabric_core/src/control_fabric_core/controlled_proof.py:1394-1398 | truncation to milliseconds keeps every admissible time in the session exactly when the session starts on a whole millisecond |
| OwnerReceiptRuns.StepKeeps | packages/control_fabric_core/src/control_fabric_core/controlled_proof.py:511-621 | each attempt, crashed or not, keeps result, observation and receipt of a key consistent with each other |
| ProofBindings.WriteOnce | packages/control_fabric_core/src/control_fabric_core/controlled_proof.py:456-470 | over every interleaving and every crash, between the two writes included, both binding files are write-once |
| ProofBindings.BoundCallsAgree | packages/control_fabric_core/src/control_fabric_core/controlled_proof.py:426-471 | successful binds sharing an idempotency key agree on context and full payload; those sharing a scenario execution agree on context, workflow and workflow run |
| ProofBindings.EndedExactly | packages/control_fabric_core/src/control_fabric_core/controlled_proof.py:456-470 | in any run a call that ended is bound exactly when it met no conflict, and then both files hold its own records |
| ProofBindings.BindAlone | packages/control_fabric_core/src/control_fabric_core/controlled_proof.py:456-470 | a call that finds its locks free and meets nobody binds exactly when each of its two files is absent or holds its own record, and leaves both files holding it; otherwise no file changes |
| ProofBindings.RepeatBinds | packages/control_fabric_core/src/control_fabric_core/controlled_proof.py:456-470 | a repeat of a bound request binds again and changes no file |
| ProofBindings.AdmitsExactly | packages/control_fabric_core/src/control_fabric_core/controlled_proof.py:265-412 | a request is admitted exactly when it starts within the session, before the context expires, and names a scenario execution with the scenario the context gives it |
| ProofBindings.DeathReleases | packages/control_fabric_core/src/control_fabric_core/controlled_proof.py:1471-1479 | a call may die at any point; it then holds no lock, and files and other calls are as before |
| ProofBindings.BoundAttemptsShareOwner | packages/control_fabric_core/src/control_fabric_core/controlled_proof.py:426-471 | attempts made by bound requests satisfy what the receipt theorems ask of a run |
| ProofBindings.NoDeadlock | packages/control_fabric_core/src/control_fabric_core/controlled_proof.py:456-470 | while any call is live some call can proceed: the lock order leaves no cycle of waiting |
| ProofBindings.AllCanFinish | packages/control_fabric_core/src/control_fabric_core/controlled_proof.py:456-470 | from every sound state all live calls can be brought to their end by proceeding alone |
| ProofBindings.AdvanceKeeps | packages/control_fabric_core/src/control_fabric_core/controlled_proof.py:456-470 | each step keeps lock ownership and what calls have read |
| OwnerExecution.WaitForProcessGroupExit | apps/worker/src/wgcf_worker/activities.py:550-565 | the wait confirms an exit exactly when one of its checks found no group |
| OwnerExecution.StopBeforeAcknowledgement | apps/worker/src/wgcf_worker/activities.py:525-547 | the stop helper comes back only when the cleanup has ended, with its finding or its error, and reports a cancellation exactly when one arrived |
| OwnerExecution.RunOwnerExecution | apps/worker/src/wgcf_worker/activities.py:391-499 | the outcome is the one that the deciding happening, the following cleanup and the drains call for, in every interleaving of heartbeats, output, deadline, breakage, refused signals and cancellations |
| OwnerExecution.DrainCommunication | apps/worker/src/wgcf_worker/activities.py:587-601 | a drain swallows a cancellation while it waits, and lets one out that arrives after its time is up |
| OwnerExecution.LeavesWithVerdict | apps/worker/src/wgcf_worker/activities.py:422-499 | body, handlers and the two or three drains on the way out together answer as if one cancellation lost in any of them replaced the plain answer |
| OwnerExecution.ResultMeansFenced | apps/worker/src/wgcf_worker/activities.py:441-461 | a result leaves only after output, a cleanup that saw the group gone, and no cancellation meanwhile |
| OwnerExecution.FenceIsACheck | apps/worker/src/wgcf_worker/activities.py:502-565 | fenced means that the first cleanup to end made a check that found no group |
| OwnerExecution.UnfencedIsReported | apps/worker/src/wgcf_worker/activities.py:422-480 | the report of an unconfirmed group is given exactly when the cleanup ended without confirming it, unless the execution broke, its signal was refused, or a cancellation left a drain |
| OwnerExecution.CancelledUnfencedExactly | apps/worker/src/wgcf_worker/activities.py:465-499 | cancellation with an unconfirmed group happens exactly when a cancellation left a drain whose time was up, or the execution broke and a cancellation arrived in the cleanup that followed |
| OwnerExecution.CancellationIsHeard | apps/worker/src/wgcf_worker/activities.py:465-499 | a cancellation during the cleanup ends in Cancelled or in the report of an unconfirmed group, exactly unless the signal was refused and no drain was left by another |
| OwnerExecution.CancelledUnfencedWitness | apps/worker/src/wgcf_worker/activities.py:482-496 | a breakage and a cancellation in its cleanup answer Cancelled with the group still there |
| OwnerExecution.CancelledInDrainWitness | apps/worker/src/wgcf_worker/activities.py:587-601 | a cancellation or a deadline decides, the group is still there, and a cancellation after the time of a drain takes the place of the report |
| OwnerExecution.TimeoutLostInDrain | apps/worker/src/wgcf_worker/activities.py:587-601 | the same drain turns a confirmed deadline into a cancellation |
| EvidencePromotion.EvidenceRoot.CommitStagingResult | packages/control_fabric_core/src/control_fabric_core/orchestration_activities.py:306-343 | staged evidence is promoted only when it repeats the expected result for the same request and nothing is committed yet; a committed directory without a record is refused |
| EvidencePromotion.EvidenceRoot.RunFencedOwnerExecution | apps/worker/src/wgcf_worker/activities.py:331-388 | committed evidence is never replaced, success returns the key's committed result, staged evidence is promoted exactly when the execution completed fenced, its record matches and nothing is in the way, and everything else is quarantined |
| GovernanceHistory.ReadSources | packages/control_fabric_core/src/control_fabric_core/governance_history.py:378-398 | reading all sources gives the candidates below the cursor and whether some scan was cut short |
| GovernanceHistory.ListHistory | packages/control_fabric_core/src/control_fabric_core/governance_history.py:360-436 | one page with its next cursor, as the merge over all sources defines it |
| GovernanceHistory.PagesDescend | packages/control_fabric_core/src/control_fabric_core/governance_history.py:378-436 | following cursors over a frozen store ends and serves strictly descending keys, so nothing twice, truncated or not |
| GovernanceHistory.NextIsBelow | packages/control_fabric_core/src/control_fabric_core/governance_history.py:403-418 | a next cursor is a stored record strictly below the one it follows and not above its time |
| HistoryCompleteness.PagesAreTheHistory | packages/control_fabric_core/src/control_fabric_core/governance_history.py:378-436 | when no scan is truncated and no second is mixed, all pages together are the matching records, latest first, for any filter and limit |
| HistoryCompleteness.NothingIsMissed | packages/control_fabric_core/src/control_fabric_core/governance_history.py:378-509 | a record is served exactly when it is stored and matches, under the same two conditions |
| HistoryCompleteness.FractionIsLost | packages/control_fabric_core/src/control_fabric_core/governance_history.py:478-502 | a row with a fraction is lost when a page ends at the whole second of the same second |
| HistoryCompleteness.CompleteExactly | packages/control_fabric_core/src/control_fabric_core/governance_history.py:378-509 | with no scan truncated every limit serves everything exactly when no second holds both a whole-second row and a fractional one |
| HistoryExactness.CompleteForEveryFilter | packages/control_fabric_core/src/control_fabric_core/governance_history.py:378-509 | for any store, any number and length of sources, rows of one time in any order and seconds mixed or not: every filter at every limit serves every matching record exactly when no walk, from the start or from any record, passes a record that its scans leave behind |
| HistoryTruncation.LongSourceExactly | packages/control_fabric_core/src/control_fabric_core/governance_history.py:478-509 | for one source whose query lists later times first and rows of one time in any order: every filter at every limit serves everything exactly when no second is mixed and every scan from the first row of a time gets beyond that time and, where it cuts a run of equal times, takes the ones with the higher history identifiers |
| HistoryTruncation.OrderedIsFair | packages/control_fabric_core/src/control_fabric_core/governance_history.py:478-509 | when rows of one time also come in the order of their history identifiers, that is exactly when no 500 consecutive rows share their time and are followed by another |
| HistoryLosses.TieIsLost | packages/control_fabric_core/src/control_fabric_core/governance_history.py:478-509 | a time that a scan takes whole, and a next one that it cuts after rows with lower history identifiers: the rows beyond the cut are never served, at any limit and for any filter |
| HistoryLosses.TiedRowsAreLost | packages/control_fabric_core/src/control_fabric_core/governance_history.py:478-509 | concretely 400 rows at one time and 400 at the time before, of which the scan takes the 100 lowest identifiers: the other 300 are never served |
| HistoryLosses.OneTimeIsLost | packages/control_fabric_core/src/control_fabric_core/governance_history.py:478-502 | 501 or more rows at one time, in any order: those beyond the scan are never served, at any limit and for any filter |
| HistoryLosses.FilteredTieIsLost | packages/control_fabric_core/src/control_fabric_core/governance_history.py:402-418 | a filter that matches none of the first 500 rows of a source walks over all of them, and a match beyond the cut is lost when its identifier puts it above a row walked over |
| HistoryLosses.LastRowIsLost | packages/control_fabric_core/src/control_fabric_core/governance_history.py:402-418 | concretely 501 rows a second apart, but the last at the time of the one before it and with the higher identifier: a filter that only the last one matches serves nothing, at any limit |
| HistorySources.UnfilteredPagesAreTheHistory | packages/control_fabric_core/src/control_fabric_core/governance_history.py:378-509 | for any number of sources of any length with later times first, rows of one time in any order and no second mixed: the unfiltered pages of a limit are the whole history when every scan that is cut short brings, beyond the time it starts at, that many records above each row past the cut |
| HistorySources.LeftBehindIsLow | packages/control_fabric_core/src/control_fabric_core/governance_history.py:478-502 | a record that a cut scan leaves behind is not among the next limit records, because its own source brought that many above it |
| HistorySources.OrderedBrings | packages/control_fabric_core/src/control_fabric_core/governance_history.py:478-502 | which holds of a source whose rows of one time come in the order of their history identifiers when no time has more than 500 less the limit rows |
| HistorySources.SparseBrings | packages/control_fabric_core/src/control_fabric_core/governance_history.py:478-502 | and of a source with rows of one time in any order when twice the rows of a time and the limit are at most 501 |
| HistoryLosses.FilteredPagesSkip | packages/control_fabric_core/src/control_fabric_core/governance_history.py:402-418 | when a filter matches none of the first 999 rows of a long source, the walk runs over the scan onto an older record of another source, and the rows in between are never served at any limit |
| HistoryLosses.ThousandthRowIsLost | packages/control_fabric_core/src/control_fabric_core/governance_history.py:402-418 | a concrete store of 1000 rows and one older record on which the only matching row is never served |
| LedgerRuns.Conservation | packages/control_fabric_core/src/control_fabric_core/lifecycle.py:421-498 | over any interleaving of appends with the reads, export writes, ledger writes and stops of any number of retention runs: what is held, with the exports written over and the ledgers found when they were written over, is what was appended, with what runs had read when they wrote the ledger back and what is exported and still in the ledger |
| LedgerRuns.LossIsExact | packages/control_fabric_core/src/control_fabric_core/lifecycle.py:474-485 | with export names of their own, every line is still held as often as it was appended exactly when what the runs found as they wrote the ledger back is covered by what they had read and by what is held twice |
| LedgerRuns.NothingIsLost | packages/control_fabric_core/src/control_fabric_core/lifecycle.py:474-485 | in particular when every run finds the ledger that it had read; held twice are then exactly the exported lines of runs that stopped, or stand, between their two writes |
| LedgerExactness.ExactlyOnce | packages/control_fabric_core/src/control_fabric_core/lifecycle.py:474-485 | with names of their own, distinct lines and no run that reads an empty ledger: the exports in order followed by the ledger are everything ever appended, once and in order, if and only if nothing reached the ledger between a run's read and its write-back and no run stopped or stands between its two writes |
| LedgerRuns.DistinctTimesAreFresh | packages/control_fabric_core/src/control_fabric_core/lifecycle.py:457-462 | from an empty export directory, runs that plan at different times have names of their own |
| LedgerLosses.OverlapLoses | packages/control_fabric_core/src/control_fabric_core/lifecycle.py:474-485 | two runs that plan at different times and overlap: the one that read first writes the ledger back over the other's event, which is gone, and two lines are exported twice |
| LedgerLosses.SameTimeLoses | packages/control_fabric_core/src/control_fabric_core/lifecycle.py:457-490 | two runs that plan at one time for one ledger and both compact, one after the other: the first export is gone |
| LedgerLosses.EmptyReadWitness | packages/control_fabric_core/src/control_fabric_core/lifecycle.py:474-485 | when a run reads an empty ledger, a line written over can come back through a third run, so the exact condition does not extend to such runs |
| LedgerExports.OverwriteLoses | packages/control_fabric_core/src/control_fabric_core/lifecycle.py:479-490 | a compaction in one go keeps every line in order except those of an export that had its name, and loses something exactly when that export held lines |
| LedgerRetention.OneRunExactly | packages/control_fabric_core/src/control_fabric_core/lifecycle.py:314-348 | a run leaves everything once and in order exactly when it had nothing to compact, failed before its export, or compacted with no append between its read and its write-back; such appends are gone otherwise, and a failure after the export leaves the exported lines in the ledger too |
| LedgerRetention.BudgetAfterRetention | packages/control_fabric_core/src/control_fabric_core/lifecycle.py:314-463 | a compaction with no append since its plan leaves exactly the event budget, its own event included; without compaction, or when it fails, a full ledger ends above it |
| LedgerRetention.RetainedIsRun | packages/control_fabric_core/src/control_fabric_core/lifecycle.py:277-348 | one retention run is the interleaving of its plan, read, export, ledger write and event with the appends of others |
| LedgerRetention.RetentionCandidates | packages/control_fabric_core/src/control_fabric_core/lifecycle.py:351-396 | a file is a candidate exactly when it is older than the cutoff or at least max_count files are newer, with exactly those reasons |
| LedgerRetention.RetentionBounds | packages/control_fabric_core/src/control_fabric_core/lifecycle.py:351-396 | at most max_count files stay |
| LedgerRetention.DeleteCandidates | packages/control_fabric_core/src/control_fabric_core/lifecycle.py:501-516 | what is left are the files that are no candidates and those that could not be deleted, and only the latter are errors |
| LedgerRetention.Workspace.ApplyRetentionPlan | packages/control_fabric_core/src/control_fabric_core/lifecycle.py:277-348 | an unconfirmed plan changes nothing; a confirmed one does the ledger step, failures before and after the export included, and, unless a required compaction failed, leaves exactly the files to keep and the undeletable ones; success means that it did not fail and there were none of the latter |

## Left out

- ArchitectureValidator.ArchitectureSemanticErrors: schema versions 1 and 2 are not modelled, and the digest of the scope projection is a value of the packet, not computed.
- Error message texts: findings are named; their order is the order of the code, with set iteration taken in listing order.
- JSON Schema validation and regular expressions: inputs have the typed shape the schemas give; identifier patterns are parameters.
- Limits of the Python runtime: recursion depth, the digit limit of integer parsing, dictionaries with keys that are not strings.
- HTTP routes, the CLI, Temporal wiring, caller authentication, environment configuration, S3 signing, git calls and file permissions.
- The catalog and list pages of instance records, inventory planning (it uses the same commit protocol), and the row lock hint of the commit, on which no proof relies.
- Evidence shape checks of instance decisions and the exact text length of their digests.
- Registry ledger events, request authentication, the structural checks of a stored custody receipt that its type already settles, and failures of the object store between calls.
- Readiness evaluation, predecessor preservation and receipt persistence; the registry is frozen while a resolution runs, and error kinds of a refused resolution are not told apart.
- Controlled-proof context parsing and payload authorization beyond session, expiry and scenario; unreadable evidence files, which atomic replacement rules out.
- Signals, process spawning and clock arithmetic of owner execution: happenings say how each wait ended. A communication that itself ends with a timeout error, which a drain would take for its own, is not modelled.
- Unavailable sources and the detail view of governance history; a store is the rows of the available sources and does not change between pages.
- A stop, or an append, in the middle of one file write: an export and a rewritten ledger appear whole, and an appended line does.
- Native governance policy helpers, evidence projections, graph ingestion and query: mostly straight-line checks and projections.
- ArtifactRegistryAlone.RegistersExactly: asks that no stored receipt has the token or the hash of a receipt for the new digest, and that the store gives a new object a version of its own.
- OwnerReceiptRuns.RetryCompletes: asks that the attempts of one receipt key come from requests bound to one scenario record, which ProofBindings.BoundAttemptsShareOwner supplies for bound requests.
- HistoryCompleteness.NothingIsMissed: says nothing when a source holds more rows than one scan; HistoryExactness settles any store.
- HistorySources.UnfilteredPagesAreTheHistory: a sufficient condition for one limit and no filter; the exact one, HistoryExactness.CompleteForEveryFilter, is for all limits and filters together.
- LedgerExactness.ExactlyOnce: says nothing when a run reads an empty ledger or two appended lines are equal; LedgerRuns.Conservation and LedgerRuns.NothingIsLost cover both.
- Export names carry 16 digits of the source digest; the model takes them for the whole ledger they stand for, and all runs to share one export directory.
