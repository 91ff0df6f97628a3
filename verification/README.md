# Core verification

A Dafny model of the DGCA-LITE engine and proofs of the properties its three layers rest on.
`dafny verify dfyconfig.toml` checks everything.

**Layer 1, the tick transaction.** A sparse network holds cells, scoped synapses and Assemblies
(sets of cells joined by reciprocal consolidated LOCAL links). One event runs activation,
learning, resource arbitration and Assembly MAINTAIN / GROW / FORM over a snapshot and hands a
transaction to `commit`, which revalidates it and publishes it. `Network` is that object, updated
in place; `Engine.ProcessEvent` is the event. Main results:

* every lawful event performs every stage exactly as specified over the whole state, although the
  producers work with lazy overlays, counts and set-owner maps, and `commit` always accepts the
  result (`Engine.ProcessEvent`, `AssemblyStage.ProcessAssemblies`);
* over every run, every stored Assembly is connected, also those no tick touched (`Engine.Run`);
  `commit` alone does not give this (`Invariants.CommitTearsIff`), the maintain workset does;
* any reachable network can be saved and loaded back with the same content
  (`Persistence.RunAndReload`).

**Layer 2, pattern completion and separation.** The loop with carried frontier and residuals
refines full recomputation (`Reconstruction.RunRounds`); what it guarantees is
`CompletionLaws.CompletionGuarantees`. Source families are the components of the overlap graph
with acyclic dominance (`Separation.SeparateSources`).

**Layer 3, accounting and gates.** The unit ledger with forecast escrow and causal
sub-reservations (`Invocations.Run`), the exactly-once effect gate under faults at any point,
whose published arena only grows (`EffectGate.RunGate`), the forecast state machine
(`Forecast.RunForecast`) and the ranked lock discipline over any number of threads
(`Locks.RunSafe`).

**Layer 3, reasoning and identity.** Prefix-free, injective canonical bytes (`Encoder`,
`CanonicalSets`), and bounded forward inference: whatever holds of the sources holds of everything
derived (`Reasoning.RunReasoning`, `Inference.ArenaSound`), every lineage unfolds to a finite proof
(`Proofs.LineagesProved`), and a fixed point holds exactly what has one (`Closure.ClosureIff`).

## Reading the project

Modules follow the source files. Methods are the source's loops and updates; each is proved
against a declarative condition or a specification function over whole values, and the lemmas
state what those mean without the enumeration the code uses: `QualityLaws`, `AssemblyLaws` and
`ActivationLaws` do this for the numbers of a tick, `CompletionLaws` for completion, `Proofs` and
`Closure` for inference.

Predicates worth reading first: `NetworkState.IndexInv`, `StructInv`, `ConnectedInv`, `Accepts` and
`Published`; `Engine.Performed`; `AssemblyStage.Restructured`; `Learning.Learns`;
`Resources.SourceSettled`; `CompletionLaws.Completed`; `Accounts.AccountsOk`; `Invocations.Took`;
`EffectGate.Commits` and `Went`; `Forecast.Seen` and `ResultIs`; `Locks.Inv`;
`Inference.Instance` and `ArenaOk`; `Proofs.Faithful`; `Closure.Within`.

Connectivity is defined without a search: no non-empty proper part of the set is closed under
links. Distance, territory and neighbourhood of logical ids are arbitrary functions: nothing
depends on how the grid lays ids out, not even on distance being symmetric.

## Findings

Paths are relative to `src/dgca_lite/`.

* **`theta_A` must be positive** (`network.py:293-304`, `assemblies.py:67-85`). The producer reads
  a missing edge as quality 0 and compares with `theta_A`; `commit` requires both edges. The two
  tests agree if and only if `theta_A > 0` (`Connectivity.LinkTestsAgreeIff`), so `Config.Valid`
  asks for it.
* **`commit` alone does not keep Assemblies connected** (`network.py:288-314`). It searches only
  the Assemblies it is given, so cutting the edges of another one is accepted
  (`Invariants.CommitDisconnects`); this is possible if and only if some stored Assembly has two
  members (`Invariants.CommitTearsIff`).
* **The next Assembly id is not checked on load** (`persistence.py:119`). The record of any lawful
  network also loads with a low `next_assembly_id` (`Persistence.NextUnchecked`). The loaded
  network satisfies the invariants if and only if that id is above every stored id
  (`Persistence.Load`).
* **Completion at threshold 1 reads flags, not drives** (`memory/reconstruction.py:91-104`). The
  branch for `theta_pc = 1` agrees with the general test on every graph if and only if every seed
  of drive 1 carries its exact flag (`CompletionLaws.FlagsDecide`).
* **A callback inside `RankedBarrier.acquire` can break the lock order**
  (`cognition/locks.py:57-75`). Between taking the mutex and recording it on the thread's stack, a
  garbage-collection callback sees an empty stack and may take a lower barrier. With two threads
  and two ranks that reaches a cyclic wait (`Locks.WindowDeadlock`); the discipline is free of
  cyclic waits if and only if that window is closed (`Locks.WindowDecides`).
* **A forecast can get stuck** (`cognition/effects.py:1437-1512`). When a result is lost after a
  phase was paid, the slot is spent: a new evaluation gets a forecast stuck if and only if its
  result is lost (`Forecast.StuckIff`), no event gets it going again
  (`Forecast.DeliveryKeepsStuck`), and it only ends from outside (`Forecast.RunForecast`).
* **Derivations do not chain across the two schemas** (`cognition/reasoning/lineage.py:39-46`). A
  derived parent is usable only through a record of the same context, and the context names the
  schema. Four sources give a goal that both schemas together prove and no lawful arena asserts
  (`Closure.NoChaining`); what a fixed point does hold is exactly the closure under each schema
  alone (`Closure.ClosureIff`).

## Model

| member | source | states |
|---|---|---|
| `Connectivity.SearchConnected` | src/dgca_lite/assemblies.py:159-170 | the search from the least member answers true exactly when no non-empty proper part of the member set is closed under qualifying reciprocal LOCAL links; true for the empty set |
| `Connectivity.LinkTestsAgreeIff` | src/dgca_lite/network.py:293-304 | the producer's link test (`reciprocal_quality >= theta_A`, a missing edge counting as quality 0) and the link test of `commit` (both edges present) agree on every view and every pair if and only if `theta_A > 0`; so at 0 they differ |
| `QualityLaws.LinkedIff` | src/dgca_lite/assemblies.py:67-85 | two cells are linked exactly when both LOCAL edges between them exist, are consolidated, and each has strength times evidence at least `theta_A * E_max` |
| `QualityLaws.ReciprocalIs` | src/dgca_lite/assemblies.py:67-85 | the reciprocal quality is the smaller of the qualities of two consolidated edges of one territory's scopes, and zero in every other case |
| `QualityLaws.EligibleIff` | src/dgca_lite/topology.py:73-79 | a scope is eligible exactly for distinct cells within its radius, of one territory or, for the cross scope, of two |
| `Connectivity.ConnectedMonotone` | src/dgca_lite/assemblies.py:159-170 | a set whose internal links all survive a change stays connected |
| `Connectivity.ConnectedGrow` | src/dgca_lite/assemblies.py:362-379 | a connected set stays connected when a cell linked to one of its members joins it |
| `Components.FormCandidate` | src/dgca_lite/assemblies.py:220-247 | the bounded search returns the whole linked component of its seed when that component fits `K_max` and the assembly radius, and None exactly when it does not |
| `Components.ComponentsDisjoint` | src/dgca_lite/assemblies.py:398-417 | the components of two seeds are equal or share no cell |
| `Components.ComponentConnected` | src/dgca_lite/assemblies.py:411-417 | every component is connected, so the `connected` test after `_form_candidate` never refuses |
| `Validation.Diameter` | src/dgca_lite/topology.py:116-122 | the double loop returns the largest distance between two members, zero for a single one |
| `CommitChecks.ProspectiveEdges` | src/dgca_lite/network.py:195-214 | fails exactly on a key/record mismatch, else holds for each touched source the bucket after all deletes and then all upserts, and no other source |
| `CommitChecks.CheckCells` | src/dgca_lite/network.py:222-234 | accepts exactly when every id named is valid and every new activation is in range, of a known cell, and zero for a cell committed only now |
| `CommitChecks.CheckBucket` | src/dgca_lite/network.py:236-248 | accepts the bucket a source will have exactly when both ends of every edge are committed, its record and scope are lawful, and the budget has room |
| `CommitChecks.CheckShape` | src/dgca_lite/network.py:264-285 | accepts exactly the sizes, diameters and members the configuration allows |
| `CommitChecks.CheckUpsert` | src/dgca_lite/network.py:264-314 | accepts one upserted Assembly exactly when its id, size, set uniqueness, diameter, members and connectivity over the prospective edges are lawful |
| `CommitChecks.CheckAssemblies` | src/dgca_lite/network.py:250-314 | the loop over running counts accepts exactly when every upsert is lawful, the sets are distinct among themselves and against the untouched ones, and no member ends above `M_max` owners, whatever the order of the upserts |
| `CommitChecks.CheckReclaim` | src/dgca_lite/network.py:316-331 | accepts a reclaim exactly when the cell is unreferenced, unreserved and isolated in edges and memberships after the transaction |
| `CommitChecks.Validate` | src/dgca_lite/network.py:216-331 | the whole validation accepts exactly the transactions that meet the declarative acceptance condition |
| `Publication.AcceptedPublishable` | src/dgca_lite/network.py:333-389 | an accepted transaction can be published without a clash: upserted sets are free once the affected ids are withdrawn, and no surviving edge or Assembly touches a reclaimed cell |
| `Publication.PublishedWhole` | src/dgca_lite/network.py:333-398 | the separately published pieces make up one new state in which all indexes are joint again |
| `IndexUpdates.DropEdge` | src/dgca_lite/network.py:350-354 | deleting an edge from both adjacency maps keeps `incoming` the inverse of `outgoing` and changes that edge only |
| `IndexUpdates.PutEdge` | src/dgca_lite/network.py:355-360 | inserting or replacing an edge keeps `incoming` the inverse of `outgoing` and changes that edge only |
| `IndexUpdates.DropCell` | src/dgca_lite/network.py:384-389 | removing the buckets of a cell without edges keeps the inverse and every other look-up |
| `IndexUpdates.WithdrawAssembly` | src/dgca_lite/network.py:362-371 | withdrawing an Assembly keeps `memberships` and `_assembly_by_members` the inverses of `assemblies` |
| `IndexUpdates.EnrollAssembly` | src/dgca_lite/network.py:372-376 | enrolling an Assembly with a new id and a free set keeps both indexes the inverses of `assemblies` |
| `Network.SparseNetwork.constructor` | src/dgca_lite/network.py:67-79 | a new network is empty and satisfies every invariant |
| `Network.SparseNetwork.Commit` | src/dgca_lite/network.py:216-398 | all or nothing: accepted exactly when the acceptance condition holds, then the state is the published one with version and tick one higher; otherwise nothing changes; the joint index invariant holds either way |
| `Network.SparseNetwork.PublishEdges` | src/dgca_lite/network.py:350-360 | deletes then upserts in canonical order leave every edge at its upsert if there is one, else gone if deleted, else as it was, and the inverse index intact |
| `Network.SparseNetwork.PublishAssemblies` | src/dgca_lite/network.py:362-376 | withdrawing every affected id first and then enrolling the upserts leaves the stored Assemblies less the affected ones plus the upserts, both indexes inverse |
| `Network.SparseNetwork.PublishActivation` | src/dgca_lite/network.py:378-382 | every committed target takes its new activation and `active_ids` gains it exactly when it is positive |
| `Network.SparseNetwork.PublishReclaims` | src/dgca_lite/network.py:384-389 | reclaimed cells leave every map, and no edge or membership of another cell is touched |
| `Network.SparseNetwork.SeedCell` | src/dgca_lite/network.py:124-132 | accepted exactly when the cell is lawful; stored and made active if its activation is positive, else nothing changes |
| `Network.SparseNetwork.SeedSynapse` | src/dgca_lite/network.py:134-149 | accepted exactly when both ends are committed, the record and scope are lawful, the edge is new and the budget has room; adds that edge only |
| `Network.SparseNetwork.SeedAssembly` | src/dgca_lite/network.py:151-193 | accepted exactly when the Assembly is new, well shaped, connected and within `M_max`; then stored and indexed, and the next id passes it |
| `Invariants.CommitKeepsStruct` | src/dgca_lite/network.py:216-398 | budgets, scope eligibility, record ranges, Assembly shapes and the membership bound survive every accepted commit, also where the transaction did not look |
| `Invariants.KeepsBudgets` | src/dgca_lite/network.py:236-242 | checking touched sources only is enough for every source to stay within its budget |
| `Invariants.CommitConnectedIff` | src/dgca_lite/network.py:288-314 | after an accepted commit every stored Assembly is connected if and only if every Assembly the transaction did not touch is connected in the prospective edges |
| `Invariants.CommitDisconnects` | src/dgca_lite/network.py:236-314 | in any lawful network, deleting the LOCAL edges from one member of a stored Assembly of two or more cells to the others is accepted, and every state it can publish breaks connectivity |
| `Invariants.CommitTearsIff` | src/dgca_lite/network.py:216-331 | some accepted transaction tears an Assembly it does not mention if and only if some stored Assembly has two members: `commit` alone does not give the invariant |
| `Learning.AggregateEvidence` | src/dgca_lite/learning.py:197-227 | aborts exactly on unlawful evidence; an identity is accepted exactly when counted evidence names one target only, with that target and its largest mass, and is a conflict exactly when both targets are named |
| `Learning.ApplyLearning` | src/dgca_lite/learning.py:257-333 | every adjudicated identity updates its stored edge, proposes a new one, or is dropped, each exactly when it should; every update is the weighted mean with capped evidence and the exact change of state, and touched pairs are those of the updates and proposals |
| `Learning.UpdatedFacts` | src/dgca_lite/learning.py:294-322 | the new strength is the mean of old strength and target weighted by old evidence and mass, the new evidence their sum up to the cap; a CANDIDATE consolidates if and only if strength and confidence reach both thresholds, both ends are committed, the scope is eligible and the source is within its budget; a CONSOLIDATED edge is demoted if and only if it falls below `theta_demote`; the record stays lawful and strength moves toward the target |
| `Arbitration.LearningSound` | src/dgca_lite/learning.py:230-333 | whatever was adjudicated, learning proposes only edge changes the network can hold: committed ends, lawful records, eligible scopes, new identities for proposals |
| `Arbitration.Admit` | src/dgca_lite/resources.py:157-186 | admitting a proposal where there is room keeps the changes acceptable: upserts and deletes disjoint, budgets kept, every upsert one of learning's records, every delete displaced |
| `Arbitration.Displace` | src/dgca_lite/resources.py:159-186 | exchanging a weak provisional edge for a better entrant keeps the same facts; the victim was CANDIDATE, below `theta_prune`, and beaten |
| `Resources.Victim` | src/dgca_lite/resources.py:160-168 | the worst prunable pre-existing edge if the entrant beats it; otherwise none exists that it beats |
| `QualityLaws.PrunableIff` | src/dgca_lite/resources.py:160-167 | an edge may be pruned exactly when it was stored before the tick, is CANDIDATE, and strength times evidence is below `theta_prune * E_max` |
| `QualityLaws.RankByMass` | src/dgca_lite/resources.py:145-153 | ranking by capped quality and then by mass is ranking by mass, then by target, then by scope from near to far |
| `Resources.Contend` | src/dgca_lite/resources.py:154-190 | one proposal is refused with nothing changed, or enters (with room, or in place of the victim) and strictly raises the total quality of the source |
| `Resources.ArbitrateSource` | src/dgca_lite/resources.py:138-191 | the accepted proposals of a source are a prefix of its ranking; the first refused one met a full source without an edge it could beat; edges were pruned only when full and no survivor is worse than a pruned one; total quality rises whenever anything is accepted |
| `Resources.ArbitrateSynapses` | src/dgca_lite/resources.py:124-191 | every source ends settled in that sense, none influences another, blocked proposals are exactly the refused ones above `theta_create` when novelty reaches `theta_R`, and every pruned pair is touched |
| `Recruitment.OrdinaryRecruitment` | src/dgca_lite/resources.py:103-121 | none below `theta_R`; otherwise the strongest uncommitted receptors, in order, as many as `ceil(K_R * novelty)` capped by `K_R`, all of them only if they fit |
| `Recruitment.AllocateExpansion` | src/dgca_lite/resources.py:194-246 | given cells are distinct, uncommitted, not ordinary recruits and from their request's reserve, within its bound and within `K_R` together; if units remain every request is settled; in any case turns differ by at most one between unsettled requests, earlier first; each request took its strongest free cells |
| `Recruitment.Round` | src/dgca_lite/resources.py:223-245 | one pass gives every unsettled request one cell in rank order until the ceiling, and a pass without progress means every request is settled |
| `Reclamation.ReclaimableCells` | src/dgca_lite/resources.py:279-338 | exactly the candidates that are committed, inactive, held by nothing and isolated after the tick's changes |
| `Reclamation.ReclaimableIff` | src/dgca_lite/resources.py:295-338 | a cell is reclaimable exactly when it is stored, committed, below `theta_active` after the tick, held by nothing, and no edge or Assembly left after the tick mentions it |
| `Reclamation.ReclaimableAccepted` | src/dgca_lite/resources.py:299-338 | whatever the producer finds reclaimable passes the check of `commit` for disjoint edge changes |
| `AssemblyModel.LinkedCells` | src/dgca_lite/assemblies.py:67-85 | a link in the tick's view joins two distinct committed cells of one territory |
| `AssemblyModel.GrowLive` | src/dgca_lite/assemblies.py:371-395 | growing an Assembly by a linked cell keeps all live Assemblies sound, distinct and within `M_max` |
| `AssemblyModel.FormLive` | src/dgca_lite/assemblies.py:442-447 | adding a sound new Assembly with a fresh id keeps all live Assemblies sound, distinct and within `M_max` |
| `AssemblyModel.LiveAccepted` | src/dgca_lite/network.py:250-314 | upserts and deletes whose overlay is sound, distinct and bounded pass every Assembly check of `commit`, although the producer never looked at its counts or indexes |
| `AssemblyModel.LiveConnected` | src/dgca_lite/network.py:288-314 | and the Assemblies they leave alone stay connected in the view `commit` searches |
| `Maintenance.ChangedSupport` | src/dgca_lite/assemblies.py:92-117 | of the touched pairs, exactly those whose LOCAL quality, respectively LOCAL or ASSOCIATIVE quality, changed |
| `Maintenance.OutsideWorkset` | src/dgca_lite/assemblies.py:262-284 | an Assembly outside the maintain workset sees none of its internal links change |
| `Maintenance.Maintain` | src/dgca_lite/assemblies.py:198-217 | repeatedly removing all failing members reaches the fixed point; the result is None exactly when that is smaller than `K_min` or not connected |
| `AssemblyLaws.FailingIff` | src/dgca_lite/assemblies.py:198-217 | a member fails exactly when its density or its specificity is below the keep threshold |
| `AssemblyLaws.DensityIs` | src/dgca_lite/assemblies.py:120-124 | density is the number of linked members over the number of members |
| `AssemblyLaws.MeanIs` | src/dgca_lite/assemblies.py:127-133 | the mean is the total reciprocal quality to the members over their number, whatever the order of summation |
| `AssemblyLaws.SpecificityIs` | src/dgca_lite/assemblies.py:136-156 | specificity is the total quality to the members over the total combined support in the neighbourhood plus `epsilon`, whatever the order of summation |
| `Maintenance.MaintainedSound` | src/dgca_lite/assemblies.py:198-217 | a maintained Assembly is lawful and connected, a non-empty part of the old one under the same id |
| `Maintenance.MaintainAll` | src/dgca_lite/assemblies.py:270-284 | outcomes, changed copies and deletes are exactly those of the workset |
| `Maintenance.MaintenanceSound` | src/dgca_lite/assemblies.py:262-284 | after maintenance every live Assembly, maintained or not, is sound, within `M_max` and overlaps its stored self |
| `Maintenance.Deduplicate` | src/dgca_lite/assemblies.py:286-299 | the ids dropped are exactly those whose member set a smaller live id has too, although only sets of maintained Assemblies are looked up |
| `Growth.Count` | src/dgca_lite/assemblies.py:308-320 | the lazily cached membership count equals the number of live owners in the overlay |
| `Growth.ExactSetOwnerIsExact` | src/dgca_lite/assemblies.py:322-336 | the two set indexes together find the live Assembly with a given set, or there is none |
| `Growth.ScoreGrowth` | src/dgca_lite/assemblies.py:338-369 | the ranking lists exactly the qualifying growth candidates, ordered by density, specificity, mean quality and identity |
| `AssemblyLaws.GrowthOrder` | src/dgca_lite/assemblies.py:360-366 | the ranking puts the denser candidate first, then the more specific, then the one with the better mean quality, then the smaller identity |
| `AssemblyLaws.GrowthIdentitiesAre` | src/dgca_lite/assemblies.py:338-348 | a cell is considered for an Assembly exactly when a changed pair that is linked now joins it to a cell the stored Assembly has, and the live one lacks it |
| `Growth.GrowOne` | src/dgca_lite/assemblies.py:372-396 | one admission over lazy counts and owners changes the live Assemblies exactly as a test against the whole live map would: joined if and only if not a member, in size and radius, under `M_max` and no live Assembly has the grown set |
| `Growth.GrowAll` | src/dgca_lite/assemblies.py:371-396 | the loop over the ranking equals those whole-map admissions one after the other |
| `Formation.FormCandidates` | src/dgca_lite/assemblies.py:398-417 | a set is a candidate exactly when it is the admissible component of some changed seed with size and core coverage in range |
| `AssemblyLaws.CohesionIs` | src/dgca_lite/assemblies.py:186-195 | cohesion is the mean reciprocal quality over the pairs of members, whatever the order of summation |
| `AssemblyLaws.FormOrder` | src/dgca_lite/assemblies.py:417-426 | the ranking puts the better covered set first, then the more cohesive, then the lexicographically smaller |
| `AssemblyLaws.SeedsAre` | src/dgca_lite/assemblies.py:388-396 | the seeds are exactly the ends of the changed pairs that are linked now |
| `AssemblyLaws.DegreeIs` | src/dgca_lite/assemblies.py:176-182 | the degree of a member is the number of other members it is linked to |
| `AssemblyLaws.CoverageIs` | src/dgca_lite/assemblies.py:173-183 | core coverage is the share of the members whose degree reaches `d_min` |
| `Formation.CandidatesDisjoint` | src/dgca_lite/assemblies.py:407-417 | distinct candidates share no cell |
| `Formation.ExistingSetsComplete` | src/dgca_lite/assemblies.py:419-428 | the bounded look-up through the snapshot's memberships finds every live Assembly that already has a candidate's set |
| `Formation.AcceptForms` | src/dgca_lite/assemblies.py:429-440 | the accepted forms are exactly the ranked candidates whose members all have room: the ranking never changes which are accepted |
| `Formation.AssignForms` | src/dgca_lite/assemblies.py:442-447 | forms are numbered consecutively from the next id in lexicographic order of their members, and the live map stays sound |
| `Formation.NumberedAt` | src/dgca_lite/assemblies.py:442-447 | each new id holds the form at its place, each old id what it held |
| `AssemblyStage.MaintainStage` | src/dgca_lite/assemblies.py:259-306 | MAINTAIN and deduplication leave of the snapshot exactly the maintained Assemblies, for each member set the one with the least id |
| `AssemblyStage.GrowStage` | src/dgca_lite/assemblies.py:338-396 | GROW leaves exactly what the whole-map admissions in rank order leave |
| `AssemblyStage.FormStage` | src/dgca_lite/assemblies.py:398-447 | FORM adds exactly the candidates with room whose set no live Assembly has, under fresh consecutive ids |
| `AssemblyStage.ProcessAssemblies` | src/dgca_lite/assemblies.py:250-463 | for every lawful snapshot and any edge changes whose touched pairs cover them: the live Assemblies are the maintained, deduplicated, grown and formed ones, all sound, distinct and within `M_max`; removed members are exactly those an Assembly lost |
| `AssemblyStage.RestructuredOnce` | src/dgca_lite/assemblies.py:250-463 | that outcome is determined by the snapshot and the edge changes: no cache, index or set order shows through |
| `Activation.ComputeActivation` | src/dgca_lite/activation.py:34-100 | aborts exactly on a drive outside [0, 1]; otherwise every target, and only a committed one, gets its next value |
| `Activation.DriveRange` | src/dgca_lite/activation.py:57-93 | a drive is at least the external one and at most 1, for every network with lawful records |
| `ActivationLaws.TargetsAre` | src/dgca_lite/activation.py:46-73 | a committed cell takes part exactly when it was active, has an external drive, or an emitting cell has an edge to it; no other cell does |
| `ActivationLaws.DriveIs` | src/dgca_lite/activation.py:81-88 | the drive is what the external drive and all emitting cells together do not miss: one minus the product over them, each counted once with its scopes combined, in any order |
| `ActivationLaws.NextValueIs` | src/dgca_lite/activation.py:89-91 | the next value blends the decayed old value, which a boundary forgets, with the drive, and stays in [0, 1] |
| `ActivationLaws.BoundaryValue` | src/dgca_lite/activation.py:46-91 | across a boundary nothing but the external drive counts: the next value is `gamma_A` times it |
| `ActivationLaws.ActivationMeans` | src/dgca_lite/activation.py:34-101 | so every result of the loop holds for exactly the cells that take part the blend of old value and drive |
| `Engine.Recruit` | src/dgca_lite/resources.py:249-276 | ordinary and expansion recruits together are uncommitted valid ids and at most `K_R` |
| `Engine.TransactionAccepted` | src/dgca_lite/engine.py:206-226 | whatever the stages produce passes every check of `commit`, upserts and deletes disjoint |
| `Engine.TickKeeps` | src/dgca_lite/network.py:216-398 | publishing such a transaction keeps every invariant, connectivity of all stored Assemblies included |
| `Engine.TickStaysShaped` | src/dgca_lite/network.py:378-389 | the active ids remain exactly the cells with positive activation, because every active cell is a target |
| `Engine.BuildTransaction` | src/dgca_lite/engine.py:126-215 | for every lawful event the transaction carries out every stage exactly (activation, learning, arbitration, recruitment, Assemblies, reclamation) and is accepted |
| `Engine.ProcessEvent` | src/dgca_lite/engine.py:113-254 | one event aborts exactly on unlawful input, with nothing changed; otherwise the network is the published result of those stages and every invariant holds |
| `Engine.Run` | src/dgca_lite/engine.py:113-254 | after any run of events from a fresh network every stored Assembly is connected and lawful, all indexes are joint, and the tick counts the lawful events |
| `SavedState.RecordsDetermineIndexes` | src/dgca_lite/network.py:400-439 | cells, edges, Assemblies and counters determine every index of a lawful network |
| `SavedState.SaveCanonical` | src/dgca_lite/network.py:400-439 | two lawful networks have equal saved records exactly when they have equal contents |
| `SavedState.SaveSynapses` | src/dgca_lite/network.py:416-430 | the nested traversal lists every edge once, in canonical order |
| `SavedState.Save` | src/dgca_lite/network.py:400-439 | the saved lists hold exactly the records, each in its canonical order |
| `RecordLoading.LoadCells` | src/dgca_lite/persistence.py:90-99 | accepted exactly when every line is a lawful cell; a later line for the same id wins |
| `RecordLoading.SynapseStep` | src/dgca_lite/network.py:134-149 | testing each line against the lines before it decides lawfulness of the whole list |
| `RecordLoading.LoadSynapses` | src/dgca_lite/persistence.py:100-110 | accepted exactly when the lines are lawful, distinct and within every budget; then the adjacency reads as the lines |
| `RecordLoading.SavedSynapsesLawful` | src/dgca_lite/network.py:134-149 | the lines saved from a lawful network are lawful for `seed_synapse`, one after the other |
| `AssemblyLoading.LoadAssemblies` | src/dgca_lite/persistence.py:111-116 | accepted exactly when all lines are lawful and distinct, members stay within `M_max` and every set is connected; then stored and indexed |
| `AssemblyLoading.SavedAssembliesLawful` | src/dgca_lite/network.py:151-193 | the lines saved from a lawful network are lawful for `seed_assembly`, which needs connectivity and `M_max` of every stored Assembly |
| `Persistence.Load` | src/dgca_lite/persistence.py:81-131 | accepted exactly when every list is lawful; the loaded network then satisfies every invariant if and only if the saved next id is above every Assembly id, which the loader does not check |
| `Persistence.NextUnchecked` | src/dgca_lite/persistence.py:119-119 | the record of any lawful network is accepted with any other next id too, and is sound exactly when that id is above every stored one; so with a stored Assembly `i`, never at `i` |
| `Persistence.SavedLawful` | src/dgca_lite/persistence.py:49-66 | no constructor refuses a line saved from a lawful network |
| `Persistence.LoadedSame` | src/dgca_lite/persistence.py:81-131 | what is loaded from the record of a network has its content |
| `Persistence.Reload` | src/dgca_lite/persistence.py:49-131 | saving and loading any lawful network is never refused and gives the same content back, up to empty adjacency buckets |
| `Persistence.RunAndReload` | src/dgca_lite/persistence.py:49-131 | the same for every network any run of events can reach |
| `Reconstruction.BuildAdjacency` | src/dgca_lite/memory/reconstruction.py:64-67 | the adjacency holds exactly the links, both ways, over exactly the members |
| `Reconstruction.ProdUnion` | src/dgca_lite/memory/reconstruction.py:82-89 | a residual over disjoint supporters is the product of their residuals |
| `Reconstruction.ProdOne` | src/dgca_lite/memory/reconstruction.py:82-89 | one supporter leaves one minus its drive times its quality |
| `Reconstruction.ProdRange` | src/dgca_lite/memory/reconstruction.py:82-89 | a residual lies in [0, 1] and vanishes exactly when a certain supporter reaches the cell with quality 1 |
| `Reconstruction.FrontierStep` | src/dgca_lite/memory/reconstruction.py:122-141 | the incremental frontier is exactly the unadmitted neighbours of the admitted cells |
| `Reconstruction.ResidualStep` | src/dgca_lite/memory/reconstruction.py:122-141 | multiplying by the factors of the newly admitted neighbours gives the residual recomputed from scratch, because drives are frozen |
| `Reconstruction.RunRounds` | src/dgca_lite/memory/reconstruction.py:69-141 | the loop with carried frontier and residuals computes exactly what rounds of full recomputation compute, and terminates |
| `Reconstruction.ReconstructPattern` | src/dgca_lite/memory/reconstruction.py:51-149 | refuses exactly unknown seeds and thresholds outside (0, 1]; otherwise the recomputed completion over exactly the given links |
| `CompletionLaws.DriveOfNew` | src/dgca_lite/memory/reconstruction.py:92-118 | an admitted drive is one minus its residual, at least the threshold; with exact flags it is certain exactly when flagged |
| `CompletionLaws.ReachedFromLast` | src/dgca_lite/memory/reconstruction.py:91-141 | a cell that qualifies now and did not one round ago has a supporter from the last round |
| `CompletionLaws.RoundKeeps` | src/dgca_lite/memory/reconstruction.py:91-141 | every round keeps the facts about drives, rounds and supporters |
| `CompletionLaws.CompletionGuarantees` | src/dgca_lite/memory/reconstruction.py:91-149 | for every graph, seed and threshold: seeds keep their values, each later cell qualified from the cells of earlier rounds, has its drive and exact flag frozen from them and a supporter from exactly the round before, and nothing left qualifies |
| `CompletionLaws.NothingLeftOut` | src/dgca_lite/memory/reconstruction.py:91-141 | no member left out has support at or above the threshold, given sound flags when the threshold is 1 |
| `CompletionLaws.FlagsDecide` | src/dgca_lite/memory/reconstruction.py:91-104 | at threshold 1 the exact-flag branch agrees with the general test on every graph if and only if every certain seed carries its flag |
| `CompletionLaws.CompletionLogged` | src/dgca_lite/memory/reconstruction.py:110-121 | the log lists every admitted cell once, round by round and ascending within a round, with exactly its supporters at the time |
| `AssemblyCompletion.BuildReconstructionGraph` | src/dgca_lite/memory/reconstruction.py:20-48 | the links are exactly the member pairs whose reciprocal LOCAL quality reaches `theta_A`, with that quality |
| `AssemblyCompletion.StalledFrontier` | src/dgca_lite/memory/reconstruction.py:51-149 | over a connected member set a completion that admits someone but not everyone has a frontier |
| `AssemblyCompletion.CompleteStored` | src/dgca_lite/memory/reconstruction.py:20-149 | completion of any stored Assembly stops early only at a frontier cell whose support is below the threshold: never for lack of a link |
| `Separation.BuildOverlaps` | src/dgca_lite/memory/separation.py:27-32 | the adjacency joins exactly the distinct sources that share a seed, both ways |
| `Separation.RecordDominance` | src/dgca_lite/memory/separation.py:34-42 | the recorded pairs are exactly those overlapping sources one of which has strictly more authorised witnesses |
| `Separation.DominanceAcyclic` | src/dgca_lite/memory/separation.py:34-42 | no chain of dominance returns to its start |
| `Separation.SomeUndominated` | src/dgca_lite/memory/separation.py:44-66 | every non-empty set of sources has one that none of them dominates |
| `Separation.OverlapComponentsDisjoint` | src/dgca_lite/memory/separation.py:44-66 | overlap components that meet are equal |
| `Separation.Collect` | src/dgca_lite/memory/separation.py:47-58 | the queue-driven traversal takes exactly the component of the least unseen source |
| `Separation.Undominated` | src/dgca_lite/memory/separation.py:58-66 | the undominated list of a family is exactly its members no source dominates, and is not empty |
| `Separation.Families` | src/dgca_lite/memory/separation.py:44-66 | the families are exactly the overlap components, ordered by least member, and partition the sources |
| `Separation.SeparateSources` | src/dgca_lite/memory/separation.py:17-88 | for any sources: mismatched inputs are refused; otherwise the witnesses of a source are exactly its authorised members, dominance is strict containment of witnesses between overlapping sources, and the families are exactly the overlap components |
| `Ledger.RecordsDisjoint` | src/dgca_lite/cognition/invocation.py:300-343 | two reservations own no unit in common |
| `Ledger.ReservationKeeps` | src/dgca_lite/cognition/invocation.py:300-343 | a reservation takes exactly the asked number of first available units under a new token, touches no other unit and no other record |
| `Ledger.ReservationIff` | src/dgca_lite/cognition/invocation.py:300-343 | a reservation is refused exactly for a count that is not positive or more than is available; otherwise the first available units, that many, are reserved under a fresh record, and nothing else moves |
| `Ledger.ChosenFacts` | src/dgca_lite/cognition/invocation.py:300-343 | the chosen units were available, and no available unit before one of them is skipped |
| `Ledger.ConsumptionKeeps` | src/dgca_lite/cognition/invocation.py:345-385 | a charge turns one reserved unit of its own reservation into a consumed one and touches nothing else |
| `Ledger.ConsumptionIff` | src/dgca_lite/cognition/invocation.py:345-385 | a charge is refused exactly for an unknown token, a unit out of range, other work, or a unit that is not the record's or not reserved; otherwise that unit alone is consumed, under its own reservation |
| `Ledger.RetireInKeeps` | src/dgca_lite/cognition/invocation.py:489-499 | each reserved unit it is about becomes retired under its own reservation, every other unit, the records and the sequence stay, and units move forward only |
| `Ledger.RetirementIff` | src/dgca_lite/cognition/invocation.py:489-499 | a reservation can be retired exactly when one of its units is still reserved; afterwards none is, and no charge under its token succeeds |
| `Ledger.RetireSpendableKeeps` | src/dgca_lite/cognition/invocation.py:425-439 | every available unit is retired under the retirement, every reserved one under its own reservation, and every other unit stays |
| `Ledger.ForwardTransitive` | src/dgca_lite/cognition/invocation.py:441-539 | moving forward composes over any number of steps |
| `Escrow.BuildPool` | src/dgca_lite/cognition/invocation.py:860-903 | an escrow holds two reserved units for each offset, each under its own slot |
| `Escrow.DelegationKeeps` | src/dgca_lite/cognition/invocation.py:860-903 | delegation takes exactly twice the horizon of available units from the parent, marks them delegated and leaves the rest |
| `Escrow.ForecastConsumptionIff` | src/dgca_lite/cognition/invocation.py:905-918 | a phase of an offset is payable exactly when its slot is still reserved, and paying touches that slot only |
| `Escrow.ForecastRetirementKeeps` | src/dgca_lite/cognition/invocation.py:920-931 | ending a forecast retires exactly what was not consumed |
| `Escrow.CausalIff` | src/dgca_lite/cognition/invocation.py:959-977 | a study is reserved whole or not at all: refused exactly when fewer units are available than work classes |
| `Escrow.CausalKeeps` | src/dgca_lite/cognition/invocation.py:959-977 | a study's sub-reservations take distinct available units, one for each work class |
| `Escrow.CausalConsumptionIff` | src/dgca_lite/cognition/invocation.py:979-987 | a work class is payable exactly when the study has it and the unit of its first sub-reservation is still reserved; that unit alone is consumed |
| `Accounts.NoDoubleCharge` | src/dgca_lite/cognition/invocation.py:473-487 | no unit of the parent or of an escrow is charged twice |
| `Accounts.Conservation` | src/dgca_lite/cognition/invocation.py:505-529 | available, reserved, consumed and retired units of the parent plus the escrow units are the initial budget |
| `Accounts.ChargesBounded` | src/dgca_lite/cognition/invocation.py:473-487 | no run of charges exceeds the initial budget |
| `Accounts.ChargeStep` | src/dgca_lite/cognition/invocation.py:345-385 | a charge keeps the joint accounts |
| `Accounts.DelegateStep` | src/dgca_lite/cognition/invocation.py:860-903 | a delegation keeps the joint accounts: what leaves the parent is what the escrow holds |
| `Accounts.PoolChargeStep` | src/dgca_lite/cognition/invocation.py:905-918 | paying from an escrow keeps the joint accounts |
| `Accounts.PoolRetireStep` | src/dgca_lite/cognition/invocation.py:920-931 | ending an escrow keeps the joint accounts |
| `Invocations.Gate` | src/dgca_lite/cognition/invocation.py:243-252 | the gate lets through exactly the current revision of an invocation that is active, or at least not closed, and says why not otherwise |
| `Invocations.RetiringEnds` | src/dgca_lite/cognition/invocation.py:1004-1020 | retiring the units of studies retires exactly the units a record of one of them took and that are still reserved; none of them is reserved afterwards |
| `Invocations.Invocation.constructor` | src/dgca_lite/cognition/invocation.py:544-626 | an invocation starts active and empty, with its whole budget available |
| `Invocations.Invocation.Reserve` | src/dgca_lite/cognition/invocation.py:444-459 | a count that is not positive, a lost gate and too few available units are refused in this order with nothing changed; otherwise the first available units, that many, go to a fresh record |
| `Invocations.Invocation.Consume` | src/dgca_lite/cognition/invocation.py:473-487 | one reserved unit of the record is consumed for exactly the recorded work and logged once; every other case aborts with its own code and nothing changed |
| `Invocations.Invocation.Retire` | src/dgca_lite/cognition/invocation.py:489-499 | refused exactly when the token is unknown or no unit of its record is reserved; otherwise each reserved unit of the record, and no other, is retired under its own reservation, none stays reserved, and no charge under the token succeeds any more |
| `Invocations.Invocation.RetireUnused` | src/dgca_lite/cognition/invocation.py:501-503 | every available unit is retired under the retirement, every reserved one under its own reservation, and nothing else moves |
| `Invocations.Invocation.ChargeForecast` | src/dgca_lite/cognition/invocation.py:905-918 | pays a phase of an offset exactly when its slot is reserved: that slot alone is consumed and logged once; otherwise nothing changes |
| `Invocations.Invocation.RetireForecast` | src/dgca_lite/cognition/invocation.py:920-931 | retires every slot of an escrow that was not consumed; nothing returns to the parent |
| `Invocations.Invocation.ChargeStudy` | src/dgca_lite/cognition/invocation.py:979-987 | the first reservation of the work class is charged exactly while its unit is reserved, and logged once; otherwise nothing changes |
| `Invocations.Invocation.ReduceStudy` | src/dgca_lite/cognition/invocation.py:1004-1020 | every unit the study took and did not spend is retired, none stays reserved, no other unit moves, and that study alone is detached |
| `Invocations.Invocation.BeginClose` | src/dgca_lite/cognition/invocation.py:665-690 | phase one: an active invocation stops taking work, its children end, exactly their unspent units are retired and none stays reserved; repeating it changes nothing |
| `Invocations.Invocation.FinalizeClose` | src/dgca_lite/cognition/invocation.py:692-707 | phase two: closes exactly when closing, childless and without a spendable unit |
| `Invocations.Invocation.Discard` | src/dgca_lite/cognition/invocation.py:745-776 | whatever the phase, the invocation ends closed: every available unit is retired under the retirement, every reserved one under its own reservation, nothing else moves; a closed one is unchanged |
| `Invocations.Invocation.Seal` | src/dgca_lite/cognition/effects.py:542-790 | in the order of the source: an unlawful horizon, a repeated request (the live forecast, after a close too; refused once that forecast ended), lost authority, what the checks before the ledger refuse; a new forecast exactly when none of these applies, nothing refuses after the ledger and one unit plus two for each offset are available, all paid and delegated together; otherwise nothing changes |
| `Invocations.Invocation.OpenStudy` | src/dgca_lite/cognition/causality/runtime.py:832-956 | in the order of the source: lost authority, a foreign scope, a repeated study (the live one, refused once it ended), no room; a new study exactly when none of these applies, nothing refuses after the ledger and one unit plus one for each of 1 to 255 work classes are available, all taken together; otherwise nothing changes |
| `Invocations.Invocation.OpenEpoch` | src/dgca_lite/cognition/cie.py:230-296 | an active invocation holds at most one inference epoch |
| `Invocations.Invocation.CloseChildren` | src/dgca_lite/cognition/invocation.py:681-688 | every child ends; each unit the studies took and did not spend is retired, none stays reserved, and no other unit moves |
| `Invocations.Invocation.CloseOut` | src/dgca_lite/cognition/invocation.py:665-707 | begin, retire the unused, finalize: always ends closed from an active state |
| `Invocations.SealNeeds` | src/dgca_lite/cognition/effects.py:620-649 | a seal needs exactly one unit and two for each offset |
| `Invocations.StudyNeeds` | src/dgca_lite/cognition/causality/runtime.py:875-956 | a study needs exactly one unit and one for each work class |
| `Invocations.Run` | src/dgca_lite/cognition/invocation.py:441-707 | over any sequence of operations with any arguments, each of which takes effect exactly when it should and changes exactly what it should: units only move forward, reservations are disjoint, no unit is charged twice, parent and escrows conserve the budget, closed implies no available or reserved unit, and no seal request or study name opened a second child, not even after the first ended |
| `EffectGate.InspectedFirst` | src/dgca_lite/cognition/invocation.py:387-423 | a charge that can be consumed could be inspected as the same charge before |
| `EffectGate.InspectIff` | src/dgca_lite/cognition/invocation.py:387-423 | the look-up finds a charge exactly when it names a unit of the reservation behind the token for exactly the recorded work, spent or not |
| `EffectGate.ExtensionIff` | src/dgca_lite/cognition/cie.py:621-639 | an arena that keeps every entry and takes all additions in exists exactly when they agree with what is published, and is then determined |
| `EffectGate.PlanIff` | src/dgca_lite/cognition/cie.py:600-646 | the plan passes exactly when its snapshot is current and such an arena exists within the bounds; the arena published has one more version and is it |
| `EffectGate.ConflictUnfit` | src/dgca_lite/cognition/cie.py:624-630 | an addition that contradicts a published entry leaves no arena to publish |
| `EffectGate.StoredGrows` | src/dgca_lite/cognition/effects.py:1066-1113 | a newly stored effect holds a unit no stored effect holds |
| `EffectGate.StoredCharged` | src/dgca_lite/cognition/effects.py:521-537 | every stored effect was charged, once, in the log of its invocation |
| `EffectGate.Gate.Swap` | src/dgca_lite/cognition/effects.py:1091-1133 | the nine swaps happen all or none: a fault before any of them restores ledger, owner, registry, arena, epoch and child count |
| `EffectGate.Gate.Look` | src/dgca_lite/cognition/effects.py:951-991 | the first section finds a stored effect exactly for a genuine retry, lets through exactly a live request with a genuine charge that is not stored, and writes nothing |
| `EffectGate.Gate.Finish` | src/dgca_lite/cognition/effects.py:992-1144 | the final section, entered in whatever state other operations left: it returns a stored effect if there is one now, else commits exactly when every gate passes and no fault occurs; a commit charges one unit, stores one effect, and leaves an arena (or the last one, if terminal) with every old entry, every addition and nothing else; an addition that contradicts a published entry never commits; in every other case nothing changes |
| `EffectGate.Gate.Authorize` | src/dgca_lite/cognition/effects.py:951-1144 | both sections in a row: commits exactly when every gate passes and no fault occurs, charging one unit, storing one effect and keeping every published entry; a contradicting addition never commits; a retry returns the stored charge and changes nothing; anything else leaves ledger, owner and arena as they were |
| `EffectGate.RunGate` | src/dgca_lite/cognition/effects.py:951-1144 | over any interleaving of first sections, final sections, retries, faults and other operations of the invocation, each carried out exactly: each identity is committed at most once, the stored effects are exactly the committed ones, no step drops or rewrites a stored one, and throughout an epoch the published arena only gains entries and versions |
| `Forecast.NextOutcomeOk` | src/dgca_lite/cognition/prediction/observation.py:71-145 | one more evaluated occurrence always makes a well-formed outcome with the status of `status_after` |
| `Forecast.MatchIff` | src/dgca_lite/cognition/prediction/evaluation.py:38-49 | a carrier target matches exactly when it is among the root witnesses; a branch target exactly when its Assembly is shown with a common anchor and all pattern cells |
| `Forecast.MatchMonotone` | src/dgca_lite/cognition/prediction/evaluation.py:38-49 | an empty retrieval never matches, and seeing more never loses a match |
| `Forecast.ResultOnce` | src/dgca_lite/cognition/effects.py:1437-1512 | what an evaluation sees determines its result |
| `Forecast.PayNext` | src/dgca_lite/cognition/invocation.py:905-918 | with a paid prefix the next slot is payable and no earlier one is |
| `Forecast.Forecast.constructor` | src/dgca_lite/cognition/effects.py:542-794 | a sealed forecast is pending, with no coverage and its whole escrow unpaid |
| `Forecast.Forecast.Retire` | src/dgca_lite/cognition/effects.py:261-292 | ends with the status asked for, or with an already published terminal one; a failed cleanup changes nothing |
| `Forecast.Forecast.Publish` | src/dgca_lite/cognition/effects.py:1285-1327 | attaches the prepared result exactly as it was paid for and pays nothing; a failure keeps it; a terminal result ends the forecast unless cleanup fails |
| `Forecast.Forecast.EvaluateNew` | src/dgca_lite/cognition/effects.py:1437-1512 | two payments and one more offset whatever was captured; the new entry is matched exactly when the capture succeeded and showed the target; a failed or unrepresentable capture is a gap and never matched; a result lost after a payment aborts and is never paid again |
| `Forecast.Forecast.Evaluate` | src/dgca_lite/cognition/effects.py:1417-1512 | a prepared result is published first and never recomputed; a repeated occurrence changes nothing; one not after the origin is refused; else as for a new one |
| `Forecast.Forecast.Deliver` | src/dgca_lite/cognition/effects.py:1514-1567 | cleanup of a terminal forecast, then boundary, then staleness, then evaluation, each with its exact outcome; a new entry is matched exactly when the capture succeeded and showed the target |
| `Forecast.StuckIff` | src/dgca_lite/cognition/effects.py:1437-1512 | a new evaluation leaves the forecast stuck (a phase paid for an offset that has no result) exactly when it was stuck before or its result was lost |
| `Forecast.DeliveryKeepsStuck` | src/dgca_lite/cognition/effects.py:1514-1567 | no delivered event gets a stuck forecast going: it is unchanged, or ended from outside |
| `Forecast.Forecast.RetryPublication` | src/dgca_lite/cognition/effects.py:813-827 | attaches an already paid result or ends a stale forecast; nothing is evaluated or paid |
| `Forecast.RunForecast` | src/dgca_lite/cognition/effects.py:1514-1567 | over any events, retries, cancellations and failures, each step with its exact outcome: every outcome is well formed, coverage ordinals are 1..k with distinct occurrences and k at most the horizon, the consumed escrow units are a prefix of length 2k to 2k+2, and once stuck the forecast never changes again except to end |
| `Locks.StepKeeps` | src/dgca_lite/cognition/locks.py:57-86 | every step of every thread keeps: stacks rank-nondecreasing with equal ranks only on re-entry, each mutex taken by its recorded or in-between owner as often as recorded, cleanups only where they may run |
| `Locks.WaiterBelow` | src/dgca_lite/cognition/locks.py:57-75 | a waiting thread has taken only barriers of lower rank than the one it waits for |
| `Locks.ChainClimbs` | src/dgca_lite/cognition/locks.py:57-75 | along a chain of waits the ranks climb |
| `Locks.NoCyclicWait` | src/dgca_lite/cognition/locks.py:44-93 | no chain of waits closes |
| `Locks.CleanupStartsFree` | src/dgca_lite/cognition/locks.py:11-41 | a deferred or direct cleanup starts only when its thread has taken no barrier |
| `Locks.RunSafe` | src/dgca_lite/cognition/locks.py:44-93 | over any run of any threads from idle the invariant holds and no wait is cyclic, as long as no garbage-collection callback runs between taking a mutex and recording it |
| `Locks.WindowDeadlock` | src/dgca_lite/cognition/locks.py:57-75 | with such a callback, two threads and two ranks reach a cyclic wait: the run is exhibited |
| `Locks.WindowDecides` | src/dgca_lite/cognition/locks.py:57-75 | so the discipline is free of cyclic waits if and only if that window is closed |
| `Encoding.BigEndianInjective` | src/dgca_lite/cognition/serialization.py:81-87 | equal big-endian numbers of one width are equal |
| `Encoding.BigEndianReads` | src/dgca_lite/cognition/serialization.py:81-87 | reading the bytes back most significant first gives the number |
| `Encoding.WidthHolds` | src/dgca_lite/cognition/serialization.py:81-87 | the width is the least number of bytes that holds the number |
| `Encoding.UniqueParse` | src/dgca_lite/cognition/serialization.py:89-172 | two closed values whose encodings start the same bytes are the same value |
| `Encoding.EncodingInjective` | src/dgca_lite/cognition/serialization.py:89-172 | equal bytes exactly for equal values |
| `Encoding.EncodingPrefixFree` | src/dgca_lite/cognition/serialization.py:89-172 | no encoding is a proper prefix of another |
| `Encoder.EncodeExact` | src/dgca_lite/cognition/serialization.py:67-174 | the traversal with its running node count accepts exactly the well-formed values that fit the bounds, and returns the canonical bytes and the exact count; well formed means finite floats, enum values of the closed vocabulary, record schemas and sorted set fields |
| `Encoder.SetFieldIs` | src/dgca_lite/cognition/serialization.py:53-172 | a set field passes exactly when its items are records of its one type whose bytes strictly ascend |
| `Encoder.IdentityIff` | src/dgca_lite/cognition/serialization.py:67-174 | identity bytes exist exactly for well-formed values within depth and node bounds |
| `Encoder.IdentityPrefixFree` | src/dgca_lite/cognition/serialization.py:67-174 | under any bounds one identity is a prefix of another exactly when the values are equal |
| `CanonicalSets.CanonicalDependencies` | src/dgca_lite/cognition/identity.py:155-175 | accepted exactly when the roots are well formed; then the ascending, duplicate-free tuple of exactly those roots |
| `CanonicalSets.RootsIff` | src/dgca_lite/cognition/identity.py:155-175 | the check accepts exactly roots of one record type, each well formed and within the bounds |
| `CanonicalSets.OneTuplePerSet` | src/dgca_lite/cognition/identity.py:155-175 | two canonical tuples are equal exactly when the sets are |
| `CanonicalSets.UnionCommutes` | src/dgca_lite/cognition/identity.py:155-175 | union through the canonical tuple is commutative |
| `CanonicalSets.UnionAssociates` | src/dgca_lite/cognition/identity.py:155-175 | and associative |
| `CanonicalSets.UnionIdempotent` | src/dgca_lite/cognition/identity.py:155-175 | and idempotent |
| `CanonicalSets.SetFieldCanonical` | src/dgca_lite/cognition/serialization.py:53-172 | the encoder's check on a set field accepts exactly the canonical tuples |
| `Inference.NoNewReferents` | src/dgca_lite/cognition/reasoning/inference.py:104-105 | what the conclusion of a step mentions one of its parents mentions |
| `Inference.InstanceIff` | src/dgca_lite/cognition/reasoning/inference.py:77-106 | the matching accepts exactly the schema instances: a conditional with its antecedent gives its consequent, a transitive relation with two links that share the middle term gives the link across; the rule given or assumed formally and all parents in one scope; and each gives that one conclusion |
| `Inference.StepSound` | src/dgca_lite/cognition/reasoning/inference.py:84-105 | in every reading that obeys conditionals and transitive relations, if the parents of a step hold its conclusion holds |
| `Inference.RecordHolds` | src/dgca_lite/cognition/reasoning/lineage.py:72-99 | if the sources hold in such a reading, every recorded conclusion holds |
| `Inference.ArenaSound` | src/dgca_lite/cognition/reasoning/lineage.py:72-99 | whatever holds of the sources of a lawful arena holds of everything it has derived |
| `Inference.FindSelf` | src/dgca_lite/cognition/reasoning/assertions.py:74-110 | a record is found under its own key and context, and only it |
| `Inference.ParentWitness` | src/dgca_lite/cognition/reasoning/lineage.py:21-69 | a parent has a support exactly when it is a sourced non-derived assertion, or a derived one with a record under the same context whose ancestors avoid the conclusion; the least such support is returned |
| `Reasoning.TryBinding` | src/dgca_lite/cognition/reasoning/inference.py:77-135 | a binding yields a candidate exactly when it is an instance of the schema that was not used and every parent has a witness; the candidate concludes that instance |
| `Reasoning.Discover` | src/dgca_lite/cognition/reasoning/inference.py:70-154 | one schema over the whole pool finds exactly its firing bindings and stays within the frontier bound, or a bound is exceeded |
| `Reasoning.FrontierDecides` | src/dgca_lite/cognition/reasoning/inference.py:51-155 | a complete frontier within the bounds holds exactly what can contribute, and no bound is exceeded: whether one is does not depend on the order of the search |
| `Reasoning.Candidates` | src/dgca_lite/cognition/reasoning/inference.py:51-155 | the frontier is exactly the firing bindings of both schemas and within its bound; it overflows if and only if a bound is exceeded, under an order of records without ties |
| `Reasoning.CandidateAcyclic` | src/dgca_lite/cognition/reasoning/lineage.py:72-88 | a conclusion is never in its own ancestry, so `lineage` never refuses for it |
| `Reasoning.RecordKeeps` | src/dgca_lite/cognition/reasoning/lineage.py:72-88 | recording a candidate keeps every record resolvable to earlier ones |
| `Reasoning.EvaluateFrontier` | src/dgca_lite/cognition/reasoning/inference.py:158-253 | exactly the clear candidates are recorded and asserted, exactly the blocked ones are marked as used, and it is incomplete exactly when some check was |
| `Reasoning.RunRound` | src/dgca_lite/cognition/reasoning/runtime.py:479-607 | a round publishes the evaluation of its complete frontier or nothing, and only adds; it is a fixed point exactly when no binding fires, and then changes nothing; it is refused if and only if the branch is unknown, a bound is exceeded, the assertions would not fit or a check is incomplete |
| `Reasoning.SeedSources` | src/dgca_lite/cognition/reasoning/runtime.py:85-240 | a batch of formal assertions and constraint premises is taken whole, exactly when it fits the bounds on sources, assertions and branches: then exactly its assertions, occurrences and premises are added, and one branch for each new root and premise; otherwise nothing changes |
| `Reasoning.RunReasoning` | src/dgca_lite/cognition/reasoning/runtime.py:479-607 | any sequence of seeds, activations and rounds keeps the arena lawful and sound: whatever holds of the sources in a lawful reading holds of everything derived; its last branch admits every assertion, every step only adds, and each is carried out exactly |
| `Proofs.UnfoldFaithful` | src/dgca_lite/cognition/reasoning/lineage.py:72-99 | every record unfolds to a finite proof of its conclusion that uses its schema only, has a formal rule at each step, repeats no conclusion among its own ancestors, has exactly the recorded ancestry and the union of the leaf roots |
| `Proofs.ProofSound` | src/dgca_lite/cognition/reasoning/inference.py:84-105 | a valid proof is sound: in every lawful reading in which its leaves hold, its conclusion holds |
| `Proofs.LineagesProved` | src/dgca_lite/cognition/cie.py:597-646 | so does every lineage of any reachable arena |
| `Proofs.AssertedProved` | src/dgca_lite/cognition/reasoning/assertions.py:69-110 | every derived assertion of a reachable arena has such a proof from the sources, by one schema only |
| `Closure.FixedPointHolds` | src/dgca_lite/cognition/reasoning/inference.py:51-155 | at a fixed point of a branch every proof by one schema whose leaf roots the branch assumes and whose steps were not blocked has its conclusion held: by a source, or by a record of that very context |
| `Closure.ClosureIff` | src/dgca_lite/cognition/reasoning/inference.py:51-155 | and exactly those: an assertion is recorded in the context of a branch and schema if and only if such a proof of it exists |
| `Closure.UnblockedClosure` | src/dgca_lite/cognition/reasoning/inference.py:51-155 | where nothing was blocked in a context, its fixed point holds everything the schema proves from the sources within the roots of the branch |
| `Closure.AncestorsHeld` | src/dgca_lite/cognition/reasoning/lineage.py:72-88 | every ancestor of a record is a source or was recorded in the same context |
| `Closure.RootsAtLeaves` | src/dgca_lite/cognition/reasoning/lineage.py:72-99 | a valid proof depends on exactly the roots at its leaves |
| `Closure.NoChaining` | src/dgca_lite/cognition/reasoning/lineage.py:39-46 | derivations do not chain across the two schemas: over four sources a goal has a valid proof by both schemas and is asserted in no lawful arena |

## Left out

- Engine.ProcessEvent: the surface codec, the temporal stream, `compute_novelty` and the enumeration of evidence are outside; an event carries the drives, novelty, evidence, historical reserves and expired or still referenced cells they would supply, and every theorem holds for all of them.
- Engine.Run: does not tie the run to a text; a run is any sequence of events.
- Network.SparseNetwork.Commit: which error is raised is not modelled, only acceptance or refusal; `Rejected` stands for every exception.
- Growth.GrowAll: does not claim that density or specificity stay above the keep thresholds after growth; the source does not recheck them.
- Recruitment.AllocateExpansion: `resolve_resources` is called twice in a tick, first without reserves to learn which proposals are blocked; the model has one call, as the first one's cells are discarded.
- CompletionLaws.CompletionGuarantees: does not claim monotonicity in the seeds; drives freeze at admission, so it does not hold.
- Persistence.Load: JSON text, the format tag, files, `fsync`, the configuration round trip and the temporal events are outside; the model starts from the record lists.
- Persistence.Reload: equality of contents is up to empty adjacency buckets, which the live network may keep and the record does not show.
- Invocations.Invocation.Seal: the projection, environment, owner and capacity checks of `seal_forecast` arrive as a refusal before the ledger or after it, at the place the source has them; its first look-up, a read of an earlier state, is not a step of its own.
- Invocations.Invocation.OpenStudy: likewise for the domain, policy, origin, capacity and owner checks of `open_study`.
- Invocations.Run: handles, weak references and the registries are abstract tokens; an escrow is a value held by its invocation; aborts from the canonical size of an image, source kinds of a charge and the retirement of the work registry are outside.
- EffectGate.Gate.Finish: what the reasoning work proves arrives as a parameter, as does whether the environment is current.
- Forecast.Forecast.Evaluate: capture of a retrieval and construction of the effect are outcomes chosen by the environment, any of them.
- Forecast.RunForecast: one forecast; the loop of `deliver_event` over all live forecasts treats them one by one.
- Locks.RunSafe: covers `RankedBarrier`; the unranked registry locks are outside, and a try-lock or a timeout is a request that may be given up at any time.
- Encoder.EncodeExact: floats are eight opaque bytes and text is its UTF-8 bytes, whose validity is not modelled; cyclic Python objects cannot be written as values.
- Reasoning.RunRound: the constraint check (`preflight`) is any verdict for each candidate, and one flag says whether the check of the admitted assertions completes; its findings are not stored.
- Reasoning.SeedSources: modal sources are outside.
- Proofs.UnfoldFaithful: arenas without modal entries; the least eligible support is least under any given total order of records, and under the order of numbers for source occurrences.
- Floats are reals: rounding, signed zeros and `exp` are not modelled, so `s*e/E` and `s*(e/E)` coincide.
- Diagnostics counters and the tick's result record: they would add only easy members.
- Type and outer-bound checks of frozen records and policies: easy preconditions.
- Causal controllers, receipts and comparisons: only their ledger operations are modelled.
- Prediction and causal import adapters, the modal codec, and the node and depth bounds of formal content.
