# Homelab inventory: a verified model of its state machines

This project models, in Dafny 4.11, the parts of the homelab inventory server whose
correctness depends on more than one function: the crash-safe activation of a restored
database, the negotiation of network speeds over cabling, the transactional workspace store,
registry update runs, agent enrolment, the identity-remapping restore, the topology normal
form, the two forms of a project in a backup, and the queue of template mutations.

Check everything with `dafny verify dfyconfig.toml`.

## How the model is laid out

| files | what they hold |
|---|---|
| `RestoreDisk`, `RestoreMachine`, `RestoreDirectory` | the database directory as files with logs and a journal; recovery as a function, as a machine of single filesystem calls with crashes, thrown errors and unordered `Promise.all` groups, and as statements on a directory object |
| `RestoreSafety`, `RestoreTheorems`, `RestoreRuns`, `RestoreLiveness`, `RestoreFaults` | the invariant of every run, the outcome of interrupted restores, recovery against its function, service after every crash, and the two faults under which safety is lost |
| `NetworkPorts`, `NetworkProject`, `NetworkMeaning`, `NetworkGraph`, `NetworkNormalization`, `NetworkPanels` | port negotiation, endpoint resolution and what their tables mean; reachability, the loops of the normalization proved against it, and the graph said without its construction |
| `WorkspaceTables`, `WorkspaceIsolation`, `WorkspaceForeign`, `WorkspaceContents`, `WorkspacePatches`, `WorkspaceRevisions`, `WorkspaceBoards`, `WorkspaceProviders`, `WorkspaceAcceptance`, `WorkspacePatchAcceptance`, `WorkspaceStore` | workspace tables and the statements on them, and what holds over whole runs of `setProject` and `applyEnginePatch` |
| `RegistryUpdates`, `RegistryDecisions`, `RegistryDeclines`, `AgentRegistry` | update runs with their counters; what each decision does and what ends a decline; enrolments, agents and bindings |
| `WorkbookRemap`, `LogicalProject` | restoring workbook rows into another database; runtime and logical projects |
| `Topology`, `InventoryMutation` | the topology normal form and the inventory edits that rely on it |
| `TemplateQueue` | the promise-tail mutex of private templates |
| `Prelude`, `Sorting` | shared datatypes and a stable sort |

## What turned out to be conditional

* **Restore safety.** Every state of every run keeps the old or the new content if and only if
  two things cannot happen: unlinks of a rejected `Promise.all` landing after its error handler
  started, and an error in the last cleanup after the new database was reopened
  (`SafeExactlyWhen`). For both there is a concrete losing run.
* **Journal stages.** The stage on disk decides the outcome for crashes. With thrown errors it
  does not: when the recovery in the error handler throws as well, the outer handler removes
  the staged file and an `active-moved` directory goes back to the old database
  (`ThrownErrorsMayRollBack`). What decides then is read off the directory
  (`RecoveryReachesVerdict`).
* **Longer paths.** Appending a port to a path never creates a link, except for the empty path,
  which negotiates nothing although a single port does (`AppendNeverLinks`).
* **Patch batches.** A patch equals its leaves from left to right, provided that no batch in it
  is empty; an empty batch anywhere makes the whole patch fail (`PatchIsItsLeaves`,
  `EmptyBatchFails`).
* **The single motherboard.** A board-provided allocation points at the only motherboard of its
  host if and only if no motherboard for that host comes later in processing order. Boards
  submitted with type `motherboard` always come first; one submitted under another type can
  come later, and then two boards remain (`SetProjectProvidesBoards`, `TypedBoardsAreSingle`,
  `MistypedBoardLeavesTwo`).
* **Declined updates.** A declined target stays declined if and only if no operation lifts that
  very decline, and `Lifts` says which do: not only a return to pending, but also deciding the
  target's group as applied when no member is blocked. Returning evaluations one by one lifts it
  only when all declined evaluations of the target are among them (`DeclineHolds`,
  `DeclineStandsExactlyWhen`, `AppliedLiftsADecline`). While it stands, no update run writes the
  target, automatic or forced; resolving it by hand does, exactly when another evaluation of it is
  still pending (`DeclinedStaysUnwritten`, `ResolveWritesBesideADecline`).
* **Remapping twice.** A to B to C equals A to C for all inventory references. The note of who
  ignored an audit finding is the exception, exactly when B does not know that user and C does
  (`RemapComposes`, `UserIsForgotten`).
* **Hosted items.** A hosted item whose type is empty does not survive a backup
  (`UntypedHostIsLost`); the exact conditions of both round trips are `RuntimeRoundTrip` and
  `LogicalRoundTrip`.

## Model

| member | source | states |
|---|---|---|
| `RestoreDisk.CheckpointKeepsContents` | server/backup/sqlite-restore-staging.ts:60-75 | folding a log into its own database, and then leaving WAL mode, does not change what any file reads as |
| `RestoreDisk.SettleStep` | server/backup/sqlite-restore-staging.ts:77-82 | carrying out any one unlink of a joined group first leads to the same directory, so the order of `Promise.all` does not matter |
| `RestoreDisk.RecoverCleansUp` | server/backup/sqlite-restore-staging.ts:84-140 | a recovery that succeeds leaves only the active file among the journal's names, reading as the chosen file did, touches no other file, and has nothing to do when run again |
| `RestoreDisk.RecoverFailsExactlyWhen` | server/backup/sqlite-restore-staging.ts:104-139 | recovery throws exactly when neither active, nor (at `active-moved`) staging, nor rollback is readable |
| `RestoreDisk.ReportedActions` | server/backup/sqlite-restore-staging.ts:104-138 | `kept-active`, `completed-activation` and `restored-rollback` are each reported in exactly one situation, told by the files and the journal stage |
| `RestoreDirectory.Directory.RemoveSidecars` | server/backup/sqlite-restore-staging.ts:77-82 | removes exactly the log and shared-memory file of one database |
| `RestoreDirectory.Directory.ValidCoreDatabase` | server/backup/sqlite-restore-staging.ts:60-75 | answers whether the file is readable; if so its log has been folded in and WAL mode left, otherwise nothing changed |
| `RestoreDirectory.Directory.WriteJournal` | server/backup/sqlite-restore-staging.ts:49-58 | replaces the journal and nothing else |
| `RestoreDirectory.Directory.RecoverInterruptedRestore` | server/backup/sqlite-restore-staging.ts:84-140 | the statements of recovery leave the directory, and return the action, that the recovery function says |
| `RestoreDirectory.Directory.Activate` | server/backup/sqlite-restore-staging.ts:740-771 | without interruption the staged database becomes active, the old one is gone and the journal with it |
| `RestoreSafety.StepKeepsInv` | server/backup/sqlite-restore-staging.ts:744-785 | every single call, crash, thrown error, commit or start keeps the invariant |
| `RestoreSafety.RunKeepsInv` | server/backup/sqlite-restore-staging.ts:744-785 | the invariant holds after every sequence of events |
| `RestoreTheorems.EveryRunIsSafe` | server/backup/sqlite-restore-staging.ts:84-140 | in every reachable state exactly the old or the new content exists as active or rollback, no database stands beside a foreign log, and no event drops a log with unsaved frames |
| `RestoreTheorems.RecoveryReachesVerdict` | server/backup/sqlite-restore-staging.ts:104-137 | any number of starts and crashes inside recovery leads to the one database that can be read off the directory, with its committed content |
| `RestoreTheorems.StageDecides` | server/backup/sqlite-restore-staging.ts:751-768 | with crashes only, `prepared` recovers to the old content and the two later stages to the new |
| `RestoreTheorems.StepKeepsFrames` | server/backup/sqlite-restore-staging.ts:741-766 | a log disappears only when its frames are already in its database |
| `RestoreRuns.RecoveryCompletes` | server/backup/sqlite-restore-staging.ts:84-140 | a recovery that can succeed can always run to its end and then has the effect of the recovery function |
| `RestoreRuns.UninterruptedRecovery` | server/backup/sqlite-restore-staging.ts:104-137 | whatever the order of joined calls, an uninterrupted recovery does to the directory what the function says |
| `RestoreRuns.UninterruptedRecoveryIsClean` | server/backup/sqlite-restore-staging.ts:88-138 | when it gets to reopening, only the active file is left and a second recovery reports nothing to do |
| `RestoreLiveness.CrashedIsRecoverable` | server/backup/sqlite-restore-staging.ts:104-139 | recovery never throws on a directory that a crash can leave |
| `RestoreLiveness.CrashedRunServesAgain` | server/backup/sqlite-restore-staging.ts:84-140 | every run that ends in a crash can go on until the program serves the database the directory determines, with its committed content |
| `RestoreLiveness.ReportMatchesService` | server/backup/sqlite-restore-staging.ts:104-138 | in runs interrupted by crashes only, a completed activation is reported iff the new database is then in service; otherwise the old one is |
| `RestoreLiveness.ErrorIsRecovered` | server/backup/sqlite-restore-staging.ts:772-785 | an error while the files are swapped can be recovered in the running program, which then serves the database the directory determines |
| `RestoreLiveness.RestoreBringsContent` | server/backup/sqlite-restore-staging.ts:644-771 | from every reachable idle state a restore of any content can run to its end, and then that content is in service and no journal is left |
| `RestoreFaults.SafeExactlyWhen` | server/backup/sqlite-restore-staging.ts:744-785 | all runs are safe if and only if neither stragglers nor a failing last cleanup can occur |
| `RestoreFaults.StragglerLosesCommits` | server/backup/sqlite-restore-staging.ts:744-780 | a run in which a late unlink drops a commit made after recovery |
| `RestoreFaults.FailedFinishLosesEverything` | server/backup/sqlite-restore-staging.ts:762-785 | a run that ends with no database file at all |
| `RestoreFaults.ThrownErrorsMayRollBack` | server/backup/sqlite-restore-staging.ts:772-785 | a reachable `active-moved` directory that recovers to the old database |
| `NetworkPorts.SupportedSpeeds` | shared/network-adapter-ports.ts:47-58 | strictly ascending, and exactly the positive safe values among the port's declared and legacy speeds |
| `NetworkPorts.CompatibleIsEquivalence` | shared/network-adapter-ports.ts:13-66 | connector compatibility is reflexive, symmetric and transitive |
| `NetworkMeaning.CompatibleFamilies` | shared/network-adapter-ports.ts:13-66 | connectors are compatible iff they are of one family: SFP cages, QSFP cages, or the same connector |
| `NetworkMeaning.DeclaredSpeeds` | shared/network-adapter-ports.ts:47-58 | declared speeds count as they are and the label is ignored |
| `NetworkMeaning.LabelledSpeeds` | shared/network-adapter-ports.ts:28-58 | a port that only has a label supports the steps of its connector up to the label |
| `NetworkMeaning.UnlabelledSpeeds` | shared/network-adapter-ports.ts:28-58 | without declared speeds and a readable label a port supports nothing |
| `NetworkMeaning.ModesMeaning` | shared/network-adapter-ports.ts:18-26 | the given modes, else the technology, else Ethernet |
| `NetworkMeaning.PhysicalMeaning` | shared/network-adapter-ports.ts:68-74 | the four network kinds with a known connector, except radio |
| `NetworkPorts.PathLinks` | shared/network-adapter-ports.ts:98-111 | a path negotiates exactly when its ports are physical, pairwise compatible and share a mode and a speed; the mode is common and the speed the greatest common one |
| `NetworkPorts.PathMeaning` | shared/network-adapter-ports.ts:98-111 | a path has speed `v` iff its ports can be linked and `v` is their greatest common speed |
| `NetworkPorts.PathIgnoresOrder` | shared/network-adapter-ports.ts:98-111 | permuting or repeating ports does not change the speed |
| `NetworkPorts.PathIsAntitone` | shared/network-adapter-ports.ts:98-111 | more ports never give more speed |
| `NetworkPorts.AppendNeverLinks` | shared/network-adapter-ports.ts:98-111 | appending never turns no link into a link, for exactly the nonempty paths |
| `NetworkPorts.TwoPortPath` | shared/network-adapter-ports.ts:80-111 | a two-port path negotiates what the two ports negotiate directly, mode and speed |
| `NetworkMeaning.OwnPortResolves` | server/db/legacy-network-normalization.ts:129-141 | an endpoint resolves to the first own port with its identifier, if the face fits |
| `NetworkMeaning.HostedPortResolves` | server/db/legacy-network-normalization.ts:96-141 | a hosted endpoint resolves to the port of the adapter that the item hosts |
| `NetworkMeaning.UnhostedResolvesToNothing` | server/db/legacy-network-normalization.ts:96-127 | an adapter the item does not host resolves to nothing |
| `NetworkMeaning.LegacyFormAgrees` | server/db/legacy-network-normalization.ts:96-141 | the old `adapter::port` identifier resolves as naming adapter and port apart does |
| `NetworkMeaning.ActivePortMeaning` | server/db/legacy-network-normalization.ts:143-160 | exactly which ports take part in negotiation, a bare SFP+ port with 10 Gbit/s |
| `NetworkMeaning.ActivePortsHaveSpeeds` | server/db/legacy-network-normalization.ts:153-160 | every active port supports some speed |
| `NetworkGraph.BuildWellFormed` | server/db/legacy-network-normalization.ts:172-193 | the adjacency map is symmetric and its keys are the recorded endpoints |
| `NetworkGraph.BuildJoins` | server/db/legacy-network-normalization.ts:187-193 | two nodes are neighbours iff some added edge joins them |
| `NetworkGraph.ClosedIsComponent` | server/db/legacy-network-normalization.ts:234-256 | a set that is closed and connected to its start is exactly the reachability class |
| `NetworkGraph.SameComponent` | server/db/legacy-network-normalization.ts:226-265 | reachable nodes have the same class, so classes partition the nodes |
| `NetworkNormalization.AddCables` | server/db/legacy-network-normalization.ts:195-199 | the loop adds exactly the edges of network connections |
| `NetworkNormalization.AddPanel` | server/db/legacy-network-normalization.ts:206-222 | the loop adds the front/back pair of every network port that has both |
| `NetworkNormalization.BuildGraph` | server/db/legacy-network-normalization.ts:172-224 | the graph of all cables and all patch-panel pairs |
| `NetworkPanels.GraphMeaning` | server/db/legacy-network-normalization.ts:195-224 | two nodes are joined iff they are the ends of a network cable or the first front and first back face of a network port of a patch panel |
| `NetworkPanels.SidesShareComponent` | server/db/legacy-network-normalization.ts:206-222 | both sides of a panel port lie in one component |
| `NetworkPanels.PanelPassesSpeed` | server/db/legacy-network-normalization.ts:201-296 | a cable on the front and one on the back of a panel port carry the same speed after recalculation |
| `NetworkPanels.RecordedEndpoint` | server/db/legacy-network-normalization.ts:176-193 | a node stands for the endpoint of its last mention |
| `NetworkPanels.KeysTellEndpointsApart` | server/db/legacy-network-normalization.ts:73-80 | endpoints of one item with plain port and face identifiers have equal keys iff they are equal |
| `NetworkNormalization.PushNeighbours` | server/db/legacy-network-normalization.ts:249-254 | pushes exactly the unvisited neighbours and marks them |
| `NetworkNormalization.Explore` | server/db/legacy-network-normalization.ts:234-256 | the stack loop terminates, visits exactly the reachability class of its start and collects exactly its active ports |
| `NetworkNormalization.NegotiateComponent` | server/db/legacy-network-normalization.ts:258-260 | one speed that is right for every node of the component, however its ports were ordered |
| `NetworkNormalization.ComponentSpeeds` | server/db/legacy-network-normalization.ts:226-265 | every node gets the speed of its component |
| `NetworkNormalization.EndsShareComponent` | server/db/legacy-network-normalization.ts:195-199 | both ends of a cable lie in one component, so looking up one end is enough |
| `NetworkNormalization.RefreshConnections` | server/db/legacy-network-normalization.ts:267-296 | every connection is rewritten to the speed of its component; the flag says whether any differs |
| `NetworkNormalization.RecalculateNegotiatedSpeeds` | server/db/legacy-network-normalization.ts:171-299 | computes the recalculated project; `changed` iff it differs |
| `NetworkNormalization.RecalculationMeaning` | server/db/legacy-network-normalization.ts:171-299 | a network connection carries `v` iff the active ports of its component can be linked and `v` is their greatest common speed; other connections carry none, and nothing else changes |
| `NetworkNormalization.NormalizeSwitchPortSpeeds` | server/db/legacy-network-normalization.ts:301-340 | every unlabelled or unsupported switch port gets the default of its type; `changed` iff something differs |
| `NetworkMeaning.DefaultLabels` | server/db/legacy-network-normalization.ts:28-44 | switch ports without a switch label get 10G on SFP+ and 1G on RJ45 and SFP; nothing else changes |
| `NetworkNormalization.NormalizeLegacyConnections` | server/db/legacy-network-normalization.ts:342-366 | legacy connections between network ports become network connections; `changed` iff something differs |
| `NetworkMeaning.LegacyLinkMeaning` | server/db/legacy-network-normalization.ts:342-366 | a legacy link becomes a network link iff both ends resolve to physical network ports; only its type changes |
| `NetworkNormalization.NormalizeNetworkProject` | server/db/legacy-network-normalization.ts:368-373 | the three stages in order; no change is reported iff all three leave the project alone |
| `NetworkNormalization.NormalizationIdempotent` | server/db/legacy-network-normalization.ts:301-373 | a normalized project is a fixed point of each of the three stages |
| `NetworkNormalization.NormalizeTwice` | server/db/legacy-network-normalization.ts:368-373 | the second pass returns the same project and reports no change |
| `WorkspaceTables.ResourceProvider` | server/persistence/sqlite-store.ts:4215-4228 | a board-provided resource comes from the one motherboard of its host and fails iff there is not exactly one; any other comes from the host itself |
| `WorkspaceTables.ResolveSlots` | server/persistence/sqlite-store.ts:4230-4261 | one resolved slot per submitted position, in order; fails iff some position has none |
| `WorkspaceAcceptance.ResolveSlotMeaning` | server/persistence/sqlite-store.ts:4230-4261 | a slot is found by item, type, group and position, submitted positions counting from zero and stored ones from one |
| `WorkspaceAcceptance.SetProjectAcceptsExactly` | server/persistence/sqlite-store.ts:832-939 | `setProject` succeeds iff the project exists, the submitted revision is current, the inventory is unchanged and every record resolves, fits and is not foreign |
| `WorkspaceAcceptance.StaleSubmissionIsRejected` | server/persistence/sqlite-store.ts:834-841 | a submission on another revision throws a revision conflict and changes nothing |
| `WorkspaceAcceptance.ReplaceAcceptsPlacements` | server/persistence/sqlite-store.ts:871-892 | placements are accepted iff items are known, coordinates finite, and no item is placed twice or by another project |
| `WorkspaceAcceptance.ReplaceAcceptsConnections` | server/persistence/sqlite-store.ts:4088-4158 | connections are accepted iff ids are positive, distinct and not foreign, ends and faces known, speeds valid and bends finite |
| `WorkspaceAcceptance.UpsertsAccept` | server/persistence/sqlite-store.ts:4160-4261 | a run of assignments succeeds iff at its turn each has known items, no foreign id, and slots on its host or on the host's only motherboard at that point |
| `WorkspaceAcceptance.EnginePatchAcceptsExactly` | server/persistence/sqlite-store.ts:3372-3395 | an engine patch succeeds iff it is made on the current revision, for the next one, and its leaves apply |
| `WorkspacePatchAcceptance.AddConnectionAccepts` | server/persistence/sqlite-store.ts:3497-3500 | adding applies iff the connection is well formed, resolves, and its id is new |
| `WorkspacePatchAcceptance.ConnectionLeavesAccept` | server/persistence/sqlite-store.ts:3502-3530 | removing, labelling and rerouting apply iff the connection is the workspace's own, and bends are finite |
| `WorkspacePatchAcceptance.DerivedAccept` | server/persistence/sqlite-store.ts:3532-3541 | derived states apply iff all name own connections and valid speeds |
| `WorkspacePatchAcceptance.PlacementPatchAccepts` | server/persistence/sqlite-store.ts:3543-3568 | a placement patch applies iff all items are known and coordinates finite |
| `WorkspacePatchAcceptance.AssignmentPatchAccepts` | server/persistence/sqlite-store.ts:3570-3581 | an assignment patch applies iff the removed ids are own and distinct and every submitted record is accepted at its turn |
| `WorkspaceIsolation.WorkspacesAreIsolated` | server/persistence/sqlite-store.ts:852-939 | no sequence of replacements and patches on one workspace changes any placement, assignment, slot row, connection, endpoint, bend or revision of another |
| `WorkspaceIsolation.SetProjectIsolated` | server/persistence/sqlite-store.ts:852-939 | one replacement leaves every other workspace alone |
| `WorkspaceIsolation.PatchIsolated` | server/persistence/sqlite-store.ts:3481-3581 | one patch tree leaves every other workspace alone |
| `WorkspaceForeign.SetProjectRejectsForeign` | server/persistence/sqlite-store.ts:894-912 | a replacement fails when any submitted assignment id belongs to another workspace or project |
| `WorkspaceForeign.AssignmentPatchRejectsForeign` | server/persistence/sqlite-store.ts:3570-3581 | so does an assignment patch, whatever else it removes or submits |
| `WorkspaceForeign.PatchRejectsForeign` | server/persistence/sqlite-store.ts:3481-3581 | so does any patch tree with such a leaf, at any depth |
| `WorkspaceForeign.ForeignAssignmentIsRejected` | server/persistence/sqlite-store.ts:4160-4213 | every operation that submits a foreign id is rejected and leaves all tables as they were |
| `WorkspaceContents.PlacementsReadBack` | server/persistence/sqlite-store.ts:871-892 | the workspace then holds exactly the submitted placements at their coordinates |
| `WorkspaceContents.AssignmentsReadBack` | server/persistence/sqlite-store.ts:894-912 | it holds exactly the submitted assignments, each with host, component and time and with its slot rows in submitted order |
| `WorkspaceContents.ConnectionsReadBack` | server/persistence/sqlite-store.ts:914-933 | it holds exactly the submitted connections, each with its source end, target end, route and bends in order |
| `WorkspaceContents.SetProjectReadsBack` | server/persistence/sqlite-store.ts:852-939 | after a successful replacement the workspace holds exactly the submitted project; no stage disturbs another |
| `WorkspaceContents.SetProjectWritesRow` | server/persistence/sqlite-store.ts:853-858 | the project row gets the submitted or the default name and the next revision; other projects stay |
| `WorkspacePatches.SetNameStores` | server/persistence/sqlite-store.ts:3490-3495 | renames the own project and changes nothing else; an empty name is an error |
| `WorkspacePatches.DropConnectionForgets` | server/persistence/sqlite-store.ts:3502-3511 | a removed connection goes with its ends and bends; every other row stays |
| `WorkspacePatches.SetCaptionStores` | server/persistence/sqlite-store.ts:3513-3516 | sets the label of one connection of this workspace and nothing else |
| `WorkspacePatches.ChangeRouteStores` | server/persistence/sqlite-store.ts:3518-3530 | sides the route names are set and others stay, the bends are the route's in order, and only this connection changes |
| `WorkspacePatches.DerivedStores` | server/persistence/sqlite-store.ts:3532-3541 | each connection gets the type and speed of the last state that names it |
| `WorkspacePatches.RemovalsRemove` | server/persistence/sqlite-store.ts:3562-3566 | exactly the named items of this workspace lose their placement |
| `WorkspacePatches.PlacementPatchStores` | server/persistence/sqlite-store.ts:3543-3568 | removed items are off the workspace, others stand where the last upsert put them, and placements the patch does not name stay |
| `WorkspacePatches.PlacementPatchKeepsProjects` | server/persistence/sqlite-store.ts:3543-3561 | a placement that stays keeps its project, a new one gets the scope's |
| `WorkspacePatches.AssignmentPatchStores` | server/persistence/sqlite-store.ts:3570-3581 | every submitted assignment is stored with host, component, time and slot rows; listed ids not resubmitted are gone with theirs; all others keep their rows |
| `WorkspaceRevisions.PatchIsItsLeaves` | server/persistence/sqlite-store.ts:3481-3488 | without empty batches, a nested patch equals its flattened leaves from left to right, errors included |
| `WorkspaceRevisions.EmptyBatchFails` | server/persistence/sqlite-store.ts:3482-3486 | an empty batch anywhere makes the patch fail |
| `WorkspaceRevisions.WorkspacePatchIsALeaf` | server/persistence/sqlite-store.ts:170-173 | the recursive test holds iff some leaf changes placements or a route |
| `WorkspaceRevisions.EnginePatchRevisions` | server/persistence/sqlite-store.ts:3372-3401 | a successful patch moves its project by one, no other project, and its workspace iff some leaf is a workspace patch |
| `WorkspaceRevisions.SetProjectRevisions` | server/persistence/sqlite-store.ts:850-939 | a replacement moves its own project and its own workspace by exactly one and no others |
| `WorkspaceRevisions.EventsIncrease` | server/persistence/sqlite-store.ts:3403-3413 | over every run the commit events of a project carry strictly increasing revisions, each its base plus one |
| `WorkspaceBoards.SubmissionOrderIsIrrelevant` | server/persistence/sqlite-store.ts:894-912 | any submission order of assignments with distinct ids gives the same result |
| `WorkspaceBoards.ProcessingOrder` | server/persistence/sqlite-store.ts:897-897 | motherboards first, otherwise ascending ids, nothing lost or added |
| `WorkspaceBoards.TypedBoardsComeFirst` | server/persistence/sqlite-store.ts:897-897 | boards typed as motherboards are processed before everything else |
| `WorkspaceBoards.ReplacementIsUpserts` | server/persistence/sqlite-store.ts:894-912 | a replacement clears the workspace and upserts in processing order |
| `WorkspaceProviders.SetProjectProvidesBoards` | server/persistence/sqlite-store.ts:4160-4261 | after a successful `setProject` each board-provided allocation names a motherboard assignment of its host, its slot rows are that board's slots in submitted order, the first is the slot of the row, and the board is the host's only one iff none comes later in processing order |
| `WorkspaceProviders.TypedBoardsAreSingle` | server/persistence/sqlite-store.ts:894-912 | with every motherboard submitted as one, the board named is the host's only board |
| `WorkspaceProviders.MistypedBoardLeavesTwo` | server/persistence/sqlite-store.ts:4160-4228 | a submission that `setProject` accepts and after which the host of a served allocation has two boards |
| `WorkspaceStore.ForEach` | server/persistence/sqlite-store.ts:879-912 | the loop over records stops at the first error |
| `WorkspaceStore.ApplyProjectPatch` | server/persistence/sqlite-store.ts:3481-3581 | the recursive loop applies the patch tree |
| `WorkspaceStore.Store.SetProject` | server/persistence/sqlite-store.ts:832-950 | all or nothing: tables and one event on success, neither on error |
| `WorkspaceStore.Store.ApplyEnginePatch` | server/persistence/sqlite-store.ts:3364-3413 | all or nothing: tables and one event on success, neither on error |
| `RegistryUpdates.CountsAddUp` | server/persistence/sqlite-store.ts:2160-2177 | the four counters sum to the number of evaluations |
| `RegistryUpdates.CountersAreExact` | server/persistence/sqlite-store.ts:2134-2181 | in every reachable state each of the four counters of a run is the number of its evaluations in that state, written out, and they sum to all of them |
| `RegistryUpdates.RunWritesEligible` | server/persistence/sqlite-store.ts:2071-2084 | a run writes exactly what nobody declined and is safe in automatic mode or forced and not blocked |
| `RegistryUpdates.RunRecordsFinding` | server/persistence/sqlite-store.ts:2148-2165 | a first evaluation records target, classification and the decision that was carried out |
| `RegistryDecisions.RunRecordsAgain` | server/persistence/sqlite-store.ts:2148-2165 | a second evaluation keeps its target, takes the new classification, and a decline stands |
| `RegistryDecisions.FailureIsNoted` | server/persistence/sqlite-store.ts:2572-2592 | a failed run is noted once with nothing counted; an existing run stays |
| `RegistryDecisions.FailedPreparationKeepsNothing` | server/persistence/sqlite-store.ts:2058-2133 | nothing of a run is kept when preparing its updates fails |
| `RegistryDecisions.GroupDecision` | server/persistence/sqlite-store.ts:2594-2613 | exactly the open evaluations of the group get the decision, or nothing changes |
| `RegistryDecisions.GroupsDecision` | server/persistence/sqlite-store.ts:2884-2912 | exactly the open evaluations of the listed groups get the decision when every group has one, otherwise nothing changes |
| `RegistryDecisions.MembersDecision` | server/persistence/sqlite-store.ts:2419-2445 | exactly the named evaluations get the decision when all are in the opposite state, otherwise nothing changes |
| `RegistryDecisions.ResolveDecision` | server/persistence/sqlite-store.ts:2779-2787 | the pending evaluations of the target become applied and it is written once, or nothing changes |
| `RegistryDeclines.DeclineHolds` | server/persistence/sqlite-store.ts:2419-2452 | a declined target stays declined under an operation iff the operation does not lift that very decline |
| `RegistryDeclines.GroupDecisionLifts` | server/persistence/sqlite-store.ts:2594-2613 | deciding one group lifts exactly the declines of its targets, when the decision is pending, or applied without blocked members |
| `RegistryDeclines.GroupsSucceed` | server/persistence/sqlite-store.ts:2884-2912 | a list of groups can be decided iff each exists at the start |
| `RegistryDeclines.ReturningLifts` | server/persistence/sqlite-store.ts:2884-2912 | returning groups to pending lifts the declines of exactly their targets |
| `RegistryDeclines.DeclinedIsWrittenByHandOnly` | server/persistence/sqlite-store.ts:2779-2787 | while declined, a target is written by an operation iff it is its resolution by hand with a pending evaluation |
| `RegistryDeclines.DeclineStandsExactlyWhen` | server/persistence/sqlite-store.ts:2071-2084 | over every run, a decline stands throughout iff no operation of the run lifts it |
| `RegistryDeclines.DeclinedStaysUnwritten` | server/persistence/sqlite-store.ts:2071-2165 | until its decline is lifted, a target is never written by a run, automatic or forced, whatever happens to other groups; it is written iff somebody resolves it by hand |
| `RegistryDeclines.AppliedLiftsADecline` | server/persistence/sqlite-store.ts:2594-2613 | declined, decided as applied, and written by the next forced run, without a return to pending |
| `RegistryDeclines.ResolveWritesBesideADecline` | server/persistence/sqlite-store.ts:2779-2787 | a declined target that its resolution by hand writes, because an older evaluation was pending |
| `RegistryUpdates.UpdateStore.CommitCatalogUpdateRun` | server/persistence/sqlite-store.ts:2058-2181 | the loops over findings leave evaluations, counters and writes as specified |
| `RegistryUpdates.UpdateStore.DecideRegistryUpdateGroups` | server/persistence/sqlite-store.ts:2884-2933 | all groups are decided or, when one is missing, none |
| `AgentRegistry.EveryRunKeepsInv` | server/persistence/sqlite-store.ts:3059-3167 | at most one open enrolment and one active binding per host, active iff unrevoked, an enrolment is used iff it activated exactly one agent |
| `AgentRegistry.RunsOnlyGrow` | server/persistence/sqlite-store.ts:3059-3257 | ids are never reused, identities never change, and a revoked agent never records another heartbeat |
| `AgentRegistry.ReplacedAgentStaysSilent` | server/persistence/sqlite-store.ts:3085-3135 | a new activation revokes the host's former agent, whose heartbeat count never moves again |
| `AgentRegistry.RevokingRevokes` | server/persistence/sqlite-store.ts:3232-3257 | afterwards every enrolment and agent of the host is revoked and its active bindings are marked revoked |
| `AgentRegistry.RevokedHostStaysSilent` | server/persistence/sqlite-store.ts:3232-3257 | over every later run no agent the host had records a heartbeat and no enrolment it had is used |
| `AgentRegistry.OtherHostsAreUntouched` | server/persistence/sqlite-store.ts:3059-3257 | no operation changes a row of another host |
| `AgentRegistry.ActivatesExactlyWhen` | server/persistence/sqlite-store.ts:3085-3095 | an activation takes effect iff the enrolment is open, is the host's, and fits protocol and key |
| `AgentRegistry.RevokedEnrollmentsStayUnused` | server/persistence/sqlite-store.ts:3085-3092 | a revoked enrolment is never used later |
| `AgentRegistry.CreatingOpensOne` | server/persistence/sqlite-store.ts:3059-3083 | one new open enrolment; the host's earlier open ones are closed and otherwise kept |
| `AgentRegistry.ActivatingReplaces` | server/persistence/sqlite-store.ts:3097-3135 | exactly the host's active agents become replaced, and one agent is added as submitted |
| `AgentRegistry.HeartbeatCounts` | server/persistence/sqlite-store.ts:3137-3167 | counts once on its agent; without a sequence number the last one stays |
| `AgentRegistry.NextId` | server/persistence/sqlite-store.ts:3059-3135 | one above the greatest id in use, or one when there is none |
| `AgentRegistry.AgentStore.CreateAgentEnrollment` | server/persistence/sqlite-store.ts:3059-3083 | closes the host's open enrolments and opens one under a new id |
| `AgentRegistry.AgentStore.ActivateAgentEnrollment` | server/persistence/sqlite-store.ts:3085-3135 | uses the enrolment up, replaces exactly the host's active agents and reports them |
| `AgentRegistry.AgentStore.RecordAgentHeartbeat` | server/persistence/sqlite-store.ts:3137-3167 | accepted iff the agent exists, is unrevoked and belongs to the host |
| `AgentRegistry.AgentStore.RevokeAgentRegistration` | server/persistence/sqlite-store.ts:3232-3257 | revokes every enrolment and agent of the host and counts the rows that changed |
| `WorkbookRemap.MapRequiredMeaning` | server/backup/sqlite-restore-staging.ts:297-302 | a reference maps to `b` iff both ids carry the same semantic key |
| `WorkbookRemap.CellMeaning` | server/backup/sqlite-restore-staging.ts:297-344 | required, optional and user columns are carried over as their kind demands, or not at all |
| `WorkbookRemap.RemapMeaning` | server/backup/sqlite-restore-staging.ts:283-346 | the remap returns a result iff every reference has a counterpart, and then every row keeps everything but its references, which name the same things |
| `WorkbookRemap.RestoredColumns` | server/backup/sqlite-restore-staging.ts:307-344 | table by table, a row is restored as `out` iff each of its columns is carried as required, optional or user reference |
| `WorkbookRemap.EmptyIsMissing` | server/backup/sqlite-restore-staging.ts:297-302 | an empty key and a zero id resolve to nothing |
| `WorkbookRemap.RemapToItself` | server/backup/sqlite-section-exporter.ts:40-82 | remapping to the database of origin is the identity iff the rows satisfy its foreign keys |
| `WorkbookRemap.RemapComposes` | server/backup/sqlite-restore-staging.ts:283-346 | A to B to C succeeds iff A to C does, and equals it iff no ignored-by user is unknown to B and known to C |
| `WorkbookRemap.UserIsForgotten` | server/backup/sqlite-restore-staging.ts:340-344 | a row whose ignored-by user is lost on the way through a database that does not know the user |
| `WorkbookRemap.RemapInPlace` | server/backup/sqlite-restore-staging.ts:307-344 | the loop that rewrites the cloned rows, stopping at the first unresolvable reference |
| `WorkbookRemap.LiveStore.RestoreWorkbooks` | server/backup/sqlite-restore-staging.ts:268-346 | on any error, a missing table included, the live database is unchanged |
| `WorkbookRemap.RestoredExactlyWhen` | server/backup/sqlite-restore-staging.ts:268-346 | a restore succeeds iff the contract version is 1, all tables are there and every reference resolves, and replaces the workbook rows only |
| `WorkbookRemap.ExportRestoresItself` | server/backup/sqlite-section-exporter.ts:40-82 | restoring an export into its own database gives that database back |
| `LogicalProject.KeyRoundTrip` | server/backup/sqlite-section-exporter.ts:107-110 | a key survives the trip through type and id iff it has a colon and a printed number after the last one |
| `LogicalProject.RefRoundTrip` | server/backup/sqlite-section-exporter.ts:107-110 | a reference survives the trip through its key iff its id does |
| `LogicalProject.CanonicalKeysAreFaithful` | server/backup/sqlite-section-exporter.ts:107-110 | `type:id` parses back for every type, with or without colons, and every whole id |
| `LogicalProject.CanonicalMeaning` | server/backup/sqlite-section-exporter.ts:107-110 | canonical keys are exactly the faithful ones with a whole id |
| `LogicalProject.RuntimeRoundTrip` | server/backup/sqlite-section-exporter.ts:124-196 | a project comes back from its section iff its keys are faithful and hosted keys name a type |
| `LogicalProject.LogicalRoundTrip` | server/backup/sqlite-section-exporter.ts:124-196 | a section comes back from its project iff it is complete and its references survive |
| `LogicalProject.CanonicalProjectsRoundTrip` | server/backup/sqlite-section-exporter.ts:107-196 | every project with canonical keys comes back whole, optional faces and hosted items included |
| `LogicalProject.MissingPartsHaveDefaults` | server/backup/sqlite-section-exporter.ts:156-196 | a section without id or lists reads as the default project without such entries |
| `LogicalProject.KeyWithoutColon` | server/backup/sqlite-section-exporter.ts:107-110 | without a colon the type loses the last character and the whole key is read as the number |
| `LogicalProject.UntypedHostIsLost` | server/backup/sqlite-section-exporter.ts:112-122 | a hosted key without a type is dropped on the way back |
| `Topology.NormalizeKeepsView` | server/persistence/mutation-effects.ts:33-50 | the normal form has the same sets at every nesting level, whatever the ids |
| `Topology.NormalFormDecides` | server/persistence/mutation-effects.ts:33-59 | with unique ids, equal normal forms iff equal as sets at every nesting level |
| `InventoryMutation.CommitMeaning` | server/persistence/sqlite-store.ts:3701-3735 | an edit succeeds unless it changes the topology and has itself moved a containing project; then every containing project advances by exactly one, and otherwise none; the own project's event names the revision before and after |
| `InventoryMutation.PlainEditAdvances` | server/persistence/sqlite-store.ts:3701-3735 | an edit that leaves project rows alone never conflicts, and moves exactly the containing projects iff the topology changed |
| `InventoryMutation.InventoryStore.AdvanceRevisions` | server/persistence/sqlite-store.ts:3726-3734 | guarded updates of all containing projects, or a conflict iff one has moved |
| `InventoryMutation.InventoryStore.CommitInventoryMutation` | server/persistence/sqlite-store.ts:3701-3749 | all or nothing: tables, flag and the own project's event on success, nothing on error |
| `TemplateQueue.NewRecord` | server/registry/model.mjs:342-370 | succeeds iff name and item are valid and ids are left; the record has the draft's name, checksum and item and the id one above the highest |
| `TemplateQueue.ImportMeaning` | server/persistence/sqlite-store.ts:1706-1717 | imported records continue the numbering, no checksum comes in twice or was there, and every draft's checksum is there afterwards |
| `TemplateQueue.ImportedFromDrafts` | server/persistence/sqlite-store.ts:1711-1717 | every imported record was made from one of the drafts |
| `TemplateQueue.ImportSucceeds` | server/persistence/sqlite-store.ts:1711-1717 | with valid drafts and ids left, an import goes through |
| `TemplateQueue.ImportTwiceAddsOnce` | server/persistence/sqlite-store.ts:1706-1717 | importing a template pack a second time adds nothing |
| `TemplateQueue.ImportRecords` | server/persistence/sqlite-store.ts:1708-1717 | the import loop, stopping at the first invalid draft |
| `TemplateQueue.EveryRunIsSerial` | server/persistence/sqlite-store.ts:390-394 | in every interleaving with deletes, ids stay distinct, a mutation has started only if all earlier ones are settled, and none is refused for a repeated id |
| `TemplateQueue.QueueDrains` | server/persistence/sqlite-store.ts:390-394 | from every reachable state the queue can run until all calls are settled, whether earlier ones fulfil or reject |
| `TemplateQueue.CreateAdds` | server/persistence/sqlite-store.ts:1641-1657 | creating adds one record from the draft under the next id |
| `TemplateQueue.DuplicateAdds` | server/persistence/sqlite-store.ts:1659-1672 | duplicating adds a copy of the source, named after it, under the next id |
| `TemplateQueue.DuplicateMissing` | server/persistence/sqlite-store.ts:1659-1663 | duplicating a missing template is rejected |
| `TemplateQueue.ImportPreviews` | server/persistence/sqlite-store.ts:1699-1717 | a good pack holds its new records after the preview, a bad one is rejected |
| `TemplateQueue.ResumeAdds` | server/persistence/sqlite-store.ts:1653-1656 | a held operation adds its records to the table as it is when it resumes |
| `TemplateQueue.DeleteRemoves` | server/persistence/sqlite-store.ts:1674-1682 | takes out the template with the id and leaves the queue alone |
| `TemplateQueue.SameReadingCollides` | server/persistence/sqlite-store.ts:1641-1657 | two records made from one reading of the table cannot both be added, which is what the queue prevents |
| `TemplateQueue.TemplateStore.SerializeRegistryMutation` | server/persistence/sqlite-store.ts:390-394 | chains the operation to the current tail and becomes the tail |
| `TemplateQueue.TemplateStore.ResumeOperation` | server/persistence/sqlite-store.ts:1641-1723 | what an operation does after an `await`: reads or adds to the table as it is then, and settles |
| `TemplateQueue.TemplateStore.DeletePrivateTemplate` | server/persistence/sqlite-store.ts:1674-1682 | deletes at once, or reports that the template is missing |

## Assumptions

* The directory a restore writes to is the directory recovery reads.
* A database that this process holds open cannot leave WAL mode from a second connection, so
  validating it fails.
* Files are not corrupted between calls; a file is absent, partially written or sound. Recovery
  itself is modelled for every such directory.
* A collation of type names that is a total order; identifiers and semantic keys that are unique
  where a statement asks for it.

## Left out

- `RestoreMachine` joins the three existence tests of recovery in one step and treats writing, renaming and chmod of the journal's temporary file as one replacement; journals with an unsupported format are left out.
- SQLite itself: foreign keys, triggers and secondary unique indexes (except the one on agent public keys); only primary keys, rollback and the cascade to own child rows are modelled.
- `WorkspaceTables` leaves out timestamps, placement orientation and z-index, project metadata and compatibility policy rows, and the routing cache.
- Parsing of speed texts, locale lower-casing and trimming: speeds arrive parsed, modes and names cleaned.
- `NetworkNormalization.BuildGraph`: node keys are texts as in the source, so different endpoints whose texts coincide share a node and the last one is recorded.
- Catalog merging, resolution planning and host allocation planning: findings and prepared records arrive as inputs. Decisions through group ids act on the members as given; how groups are projected from the newest evaluations, and the concurrency token, are not modelled.
- Agents: hardware snapshots, telemetry and host status; an agent's internal and public ids are one id.
- `WorkbookRemap.RemapMeaning`: the labels in error texts, restoring item scope and owner, and the columns that hold no ids are not modelled; inventory metadata uses the same mapping and is left out.
- Semantic keys are texts; that different resources never print the same key is an assumption.
- `LogicalProject`: endpoint fields other than item, port, face and hosted item are not carried by the source and not part of the model.
- `classifyInventoryMutation` beyond its topology flag: geometry, compatibility and presentation effects would only add easy members.
- `TemplateQueue`: timestamps and descriptions; an invalid record rejects when the operation resumes rather than at once.
- Notifications, authentication, telemetry, the user interface and its history, and the release notes.
