# Multiverse operator: a Dafny model

The operator gives every `Universe` object a set of Google Cloud resources, and gives every labelled pull request a
universe. This project models its two reconcilers, their status list, their polling loop and their string codecs,
and proves properties of runs of them.

**Universe reconciler.** `Pass` is one pass as a function of the cluster it starts from, of the answers of the API
server, and of at most one user action that reaches the server just before a chosen write of the universe object.
The ten blocks of the source are one block driven by the tables of `Resources`: which list a block's prune ranges
over, which spec it compares names with, which fields its sync copies, where annotations go. Writes of the universe are
compare-and-swap on its version; a successful write refreshes the copy in memory. `UniverseController` is the same
pass in the source's own form (a store that changes, a copy changed in place, loops over items, lists and names, with
lists taken by one block and used by a later one), each method proved equal to the function of `Pass`. `Walking`,
`Convergence`, `Lifecycle`, `Quiescence`, `Drift`, `Pruning`, `ScaleDown`, `Wiring`, `Isolation`, `Interleaving`,
`Expiry` and `References` state and prove what passes and runs of passes do. `Fields` holds field synchronisation, `Status` the status list.

**Trigger reconciler.** `Trigger` is a state machine in which users act on pull requests at any moment, also between a
listing and the handling of what was listed, and in which a deleted universe may linger until its finalizer is gone.
`TriggerController` has its loops and its in-place label removal, proved
equal to the functions of `Trigger`. `Preview` is the universe it creates, `Names` its name, `Services` the list of
services that travels in an annotation from one controller to the other.

**Helpers.** `Poll` is the polling loop with its error budget, backoff and deadline; `Ingress` the host rewriting over a server that
accepts an update only for the current version;
`Strings` splitting, joining and decimal numerals; `Utils` the map merge, the label selector and the slice search.

## What the code does not do

Some properties one would expect fail, and are proved with the exact condition under which they hold.

- Three prune blocks range over the list of another kind, and one compares with the spec of another kind. A pass may
  therefore delete a resource of its own spec; it never does if and only if the names agree
  (`Wiring.PruneSafeIffNamesAgree`). Dropping a subnetwork takes down the network of its name
  (`ScaleDown.DroppingSubnetworkDeletesNetwork`). Subnetworks, SQL databases and routers are never scaled down
  (`Convergence.ScaleDownIgnored`), and a dropped NAT stays while there is a router of its name
  (`ScaleDown.DroppedNatStays`).
- A refused update of a resource is only logged: the edited spec is recorded as observed and no later pass repairs the
  resource (`Drift.RefusedUpdateIsLost`). The same happens to an edit made before the first completed pass
  (`Drift.EarlyEditIsLost`). `Drift.CompletedPassDecides` says exactly when a resource ever agrees with its item.
- After a pass that synchronises, a router with the name of a NAT stays `Reconciling`
  (`Quiescence.CompletedPassReportsHealthy`).
- The time to live is compared with the second of the minute, so it counts only below 59 (`Expiry.OnlyShortTimesExpire`).
- The first preview in a namespace creates the service account and no universe, and is then labelled as created
  (`Trigger.FirstPreviewIsLost`); so is a pull request reopened while its old universe still terminates
  (`Trigger.EarlyPreviewIsLost`). Taking the preview label off before closing leaves the universe (`Trigger.PassAchieves`).
  Labels a user changes between listing and edit are overwritten (`Trigger.EditOverwritesLateLabels`).
- Rewriting the hosts of a namespace succeeds if and only if no ingress has two rules and no update is refused
  otherwise: the second update of an ingress carries a stale version (`Ingress.Ingresses.Patch`). An ingress with two
  rules keeps its other hosts, and all ingresses behind it keep theirs, for ever (`Ingress.TwoRulesHoldUpTheRest`).
- A host without a dot is rewritten like the host with a final dot (`Ingress.HostsCollide`), and the number of labels is
  kept only for a host with a dot and a suffix without one (`Ingress.LabelCountKept`). Every completed pass rewrites the
  hosts it reaches again (`Ingress.OneRuleIsRewrittenEachTime`).

## Model

| member | source | states |
|---|---|---|
| Utils.StampDecidesOwner | controllers/utils.go:7-19 | Merging the selector last overrides any owner label of the user: the result is owned by that universe and no other. |
| Utils.AddMap | controllers/utils.go:7-15 | The in-place merge: entries of the second map win, a nil first map makes the result an alias of the second. |
| Utils.StringInSlice | controllers/utils.go:25-32 | True exactly for the members of the slice. |
| Fields.AssignAllAt | controllers/universe_controller.go:390-420 | A run of field assignments takes the named fields (set or unset) from the source and leaves the others. |
| Fields.SyncIsOverlay | controllers/universe_controller.go:223-236 | Replace-then-restore and copy-listed-fields are the same overlay of mutable fields over kept ones. |
| Fields.SyncLaws | controllers/universe_controller.go:302-312 | After a sync mutable fields equal the spec and the others are as found; syncing is idempotent and the later of two syncs decides. |
| Fields.MergeLaws | controllers/universe_controller.go:421-422 | Annotation merge: spec entries win, others stay, idempotent, a later merge with at least the same keys decides alone. |
| Resources.NewObjectAgrees | controllers/universe_controller.go:354-362 | A created resource agrees with its item in every synchronised field and is labelled by its universe and no other. |
| Resources.NewObjectAnnotations | controllers/universe_controller.go:637-644 | Exactly when a created resource has its item's annotations: SQL instances and databases are created without them. |
| Resources.SyncObjectAgrees | controllers/universe_controller.go:380-427 | A synchronised resource agrees with its item and keeps its labels. |
| Resources.SyncObjectKeeps | controllers/universe_controller.go:579-589 | It keeps its immutable fields as found, and the annotations that the item does not list. |
| Resources.SyncObjectIs | controllers/universe_controller.go:751-761 | Field by field: mutable fields from the item, others as found; annotations merged for clusters, node pools, SQL instances and SQL databases only. |
| Resources.MutableNetworkFields | controllers/universe_controller.go:229-231 | Networks and subnetworks: everything but the restored fields is mutable. |
| Resources.MutableAccountFields | controllers/universe_controller.go:145-147 | Service accounts and routers: exactly three mutable fields each. |
| Resources.MutableClusterFields | controllers/universe_controller.go:390-420 | Clusters: exactly the thirty-one copied fields. |
| Resources.MutableNodePoolFields | controllers/universe_controller.go:581-586 | Node pools: exactly six fields, not the location. |
| Resources.MutableSQLFields | controllers/universe_controller.go:670-673 | SQL instances: exactly four fields; SQL databases: two. |
| Resources.MutableNatFields | controllers/universe_controller.go:927-940 | NATs: exactly the fourteen copied fields. |
| Resources.MutableBucketFields | controllers/universe_controller.go:1024-1036 | Buckets: exactly the thirteen copied fields. |
| Resources.FlattenBlocks | controllers/universe_controller.go:103-1075 | The ten blocks in their order reach every item of the spec and nothing else. |
| Status.UpsertKeepsOrder | controllers/sync.go:17-61 | One status update keeps every entry in its place, adds at most one at the end, and keeps (kind, name) unique. |
| Status.UpsertRefinesUpdate | controllers/sync.go:17-61 | One status update of the list is one update of the map it stands for. |
| Status.UpsertAllRefinesUpdates | controllers/sync.go:17-61 | The same for every sequence of status updates, from any list. |
| UniverseController.UniverseReconciler.Overwrite | controllers/sync.go:30-59 | The two scans with the created flag compute the upsert. |
| UniverseController.UniverseReconciler.UpdateStatus | controllers/sync.go:17-61 | Changing the list of the copy and offering it to the server is the report step of a pass, refusal included. |
| UniverseController.ApiServer.UpdateStatus | controllers/sync.go:27 | A status write is stored only if the copy's version is current; the response refreshes the copy. |
| UniverseController.ApiServer.UpdateUniverse | controllers/universe_controller.go:1142-1157 | The finalizer write is stored only if the version is current; a terminating universe without its finalizer disappears. |
| UniverseController.ApiServer.DeleteUniverse | controllers/universe_controller.go:1160 | Deleting the universe does not depend on the version and makes the copy stale. |
| UniverseController.ApiServer.List | controllers/sync.go:64-71 | Lists exactly the resources of the kind with the owner's label, each once, or nothing if the call fails. |
| UniverseController.UniverseReconciler.SyncItem | controllers/universe_controller.go:380-427 | Reporting and updating one found resource is the sync step of a pass. |
| UniverseController.UniverseReconciler.EnsureItem | controllers/universe_controller.go:106-161 | The loop body of a block: create and requeue, fail, or sync when the gate is open and report Healthy. |
| UniverseController.UniverseReconciler.EnsureItems | controllers/universe_controller.go:104-162 | The loop of a block over the items of its kind. |
| UniverseController.UniverseReconciler.Prune | controllers/universe_controller.go:168-183 | The nested loops with the isDelete flag delete exactly the listed resources whose name is not in the compared spec. |
| UniverseController.UniverseReconciler.RunBlock | controllers/universe_controller.go:264-344 | A whole block; ranging over a list taken by an earlier block deletes the same as ranging over a fresh one. |
| UniverseController.UniverseReconciler.WalkBlocks | controllers/universe_controller.go:103-1075 | The ten blocks in order, ending at the first creation or failed creation. |
| UniverseController.UniverseReconciler.Expire | controllers/universe_controller.go:1158-1168 | The time to live and the last status write. |
| UniverseController.UniverseReconciler.Finish | controllers/universe_controller.go:1128-1168 | Finishing a deletion, or adding the finalizer and recording the generation. |
| UniverseController.UniverseReconciler.Reconcile | controllers/universe_controller.go:68-1169 | The method with its loops and in-place changes computes the pass. |
| Walking.EnsureItemsEffect | controllers/universe_controller.go:104-162 | A block stops at the first item whose resource is missing, and up to there only changes what a walk may change. |
| Walking.PruneEffect | controllers/universe_controller.go:163-183 | A prune deletes only labelled resources of its range with names its compared spec lacks. |
| Walking.WalkEffect | controllers/universe_controller.go:103-1075 | A pass works with one copy of the universe, keeps labels, and stops exactly at the first spec key missing from the store it started with, whatever its earlier blocks deleted. |
| Convergence.PassKeepsSpecKeys | controllers/universe_controller.go:329-344 | When names agree no pass deletes a resource of the spec, in all ten blocks as wired. |
| Convergence.PrunedKinds | controllers/universe_controller.go:332-343 | Exactly three kinds are in no block's prune range. |
| Convergence.ScaleDownIgnored | controllers/universe_controller.go:783-798 | No pass ever deletes a subnetwork, an SQL database or a router. |
| Convergence.PassAddsFirstMissing | controllers/universe_controller.go:185-215 | Over a store with nothing but resources of the spec, a pass adds the first missing one if its creation succeeds, and nothing else. |
| Convergence.CreationFollowsSpecOrder | controllers/universe_controller.go:265-294 | From an empty store with a fixed spec every state of every run holds a prefix of the ten-kind order, even when calls fail. |
| Convergence.PrefixOrdersBlocks | controllers/universe_controller.go:538-568 | In a prefix of the order nothing of a later block exists before everything of an earlier block. |
| Convergence.EarlierKindsExist | controllers/universe_controller.go:103-1075 | In every state of every run from an empty store with a fixed spec, a resource implies everything the spec describes of the kinds before its own, in the order of the ten blocks by name. |
| Convergence.CreationOrder | controllers/universe_controller.go:537-568 | In particular: no subnetwork before all networks, no cluster before all subnetworks, no node pool before all clusters, no database before all instances, no router before all networks, no NAT before all routers. |
| Convergence.PassCreatesOne | controllers/universe_controller.go:122-132 | With something missing a reliable pass creates exactly one missing resource and asks to be requeued. |
| Convergence.PassCompletes | controllers/universe_controller.go:1128-1168 | With nothing missing a reliable pass reaches the end with the finalizer and the generation recorded. |
| Convergence.Converges | controllers/universe_controller.go:103-1168 | With m resources missing exactly m passes create one each and requeue, and pass m + 1 completes. |
| Lifecycle.PassLeaves | controllers/universe_controller.go:1128-1168 | A pass either records the generation of the very spec it worked for, with nothing changed in between, or leaves the record as it was. |
| Lifecycle.RunGuards | controllers/universe_controller.go:1130-1167 | Over every run: 0 <= observed <= generation, neither goes back, observed >= 1 or terminating implies the finalizer; it is never lost, added only at the end of a pass to a universe that does not terminate, and the universe leaves only after a pass that reached the end. |
| Lifecycle.PassReports | controllers/universe_controller.go:122-132 | What a pass returns: a requeue when it created something, a failure when it could not create, could not change the finalizer, or could not delete its expired universe. |
| Lifecycle.EditDuringPassSurvives | controllers/universe_controller.go:1165-1168 | A user's edit that lands while the blocks run stays, with its own generation, and the pass records nothing. |
| Lifecycle.PassMakes | controllers/universe_controller.go:106-161 | All that a pass can make of a resource it does not delete: the new object of its item, the synchronised one, or the old one, and exactly when. Nothing outside the spec changes. |
| Lifecycle.CreatedResource | controllers/universe_controller.go:354-362 | A resource that a pass created, field by field: its item's fields, the user's labels but for the owner's, annotations only for clusters and node pools. |
| Lifecycle.SyncedResource | controllers/universe_controller.go:660-676 | A resource after a completed syncing pass, field by field: mutable fields from the item, immutable ones, labels and unlisted annotations kept, and annotations of four kinds merged. |
| Lifecycle.StepKeepsTruth | controllers/universe_controller.go:380-427 | Every admissible step keeps: observed equal to generation means that every existing resource of the spec agrees with it. Only passes that record a new generation need updates, and only of resources out of agreement. |
| Lifecycle.RunKeepsTruth | controllers/universe_controller.go:1165-1167 | The same in every state of every run in which those updates are accepted and the spec is edited only after the first completed pass. |
| Lifecycle.RecordIsTruthfulIffAccepted | controllers/universe_controller.go:151-153 | The condition is exact: a pass that records a new generation leaves a truthful record if and only if those updates are accepted. |
| Lifecycle.FreshIsTruthful | controllers/universe_controller.go:136-136 | A new universe whose resources do not exist yet starts such runs. |
| Lifecycle.CompletedPassSyncs | controllers/universe_controller.go:136-153 | For every item and any answers, a pass through all blocks leaves the resource in agreement if and only if it agreed before, or the gate was open and its update was accepted. |
| Drift.EarlyEditIsLost | controllers/universe_controller.go:136-136 | An edit before the first completed pass is recorded as observed while the resource keeps the first spec, in all later passes. |
| Drift.CompletedPassDecides | controllers/universe_controller.go:1165-1168 | The pass that completes decides for good: exactly when a resource agrees with its item after it and after all later passes. |
| Drift.RefusedUpdateIsLost | controllers/universe_controller.go:149-152 | A refused update is recorded as observed and never made up for. |
| Quiescence.CompletedPassReportsHealthy | controllers/universe_controller.go:156-160 | Exactly which items a completed pass leaves Healthy: all but, on a syncing pass, routers with the name of a NAT, which line 921 marks. |
| Quiescence.CreatingPassReports | controllers/universe_controller.go:127-132 | A pass that creates a resource leaves it as Creating in the stored status. |
| Quiescence.SyncWrites | controllers/universe_controller.go:226-236 | A sync writes the universe once, but not at all for networks and subnetworks. |
| Quiescence.SyncReports | controllers/universe_controller.go:921-921 | It reports its own item as Reconciling, a NAT the router of its name. |
| Quiescence.CompletedPassSettles | controllers/universe_controller.go:163-183 | After a reliable completed pass no prune has anything left to delete. |
| Quiescence.SettledPass | controllers/universe_controller.go:156-161 | A pass over a settled cluster, whatever the API answers, only reports every item as Healthy. |
| Quiescence.HealthyTwice | controllers/sync.go:46-59 | Reporting all items as Healthy a second time changes nothing. |
| Quiescence.Quiescent | controllers/universe_controller.go:1150-1168 | Once settled, all later passes keep resources, record and finalizer, and the status is a fixed point from the first of them on. |
| Pruning.LongerMeansExtra | controllers/universe_controller.go:168-168 | The comparison of lengths holds if and only if some labelled resource has a name outside the spec. |
| Pruning.PruneIsExact | controllers/universe_controller.go:243-263 | A self-wired prune leaves exactly the names of the spec, deletes precisely the extra resources and changes no other. |
| Pruning.SettledOwnsItsSpec | controllers/universe_controller.go:1055-1075 | A settled universe owns exactly the names of its spec, of every self-wired kind. |
| Wiring.PruneSafeIffNamesAgree | controllers/universe_controller.go:868-883 | No pass over any store deletes a resource of the spec if and only if the names agree as the wiring needs. |
| Wiring.DifferentNamesAreUnsafe | controllers/universe_controller.go:329-344 | One network and one subnetwork with different names are already unsafe. |
| ScaleDown.PassDeletesExactly | controllers/universe_controller.go:163-183 | For any answers, a pass leaves exactly what the blocks it finished spare, each judged by the store the pass started with, and the resource it created; the block where it stops deletes nothing. |
| ScaleDown.DeletedAsWired | controllers/universe_controller.go:871-871 | Exactly which resources a pass that does not stop deletes, kind by kind: SQL instances also by the database and router blocks, networks also by the subnetwork block, NATs against router names, three kinds never; nothing on a failed listing. |
| ScaleDown.DroppedRouterDeletesInstances | controllers/universe_controller.go:786-795 | A labelled SQL instance goes when the universe labels more routers (or databases) than its spec has and the name is no router's (or database's). |
| ScaleDown.SurvivesExactly | controllers/universe_controller.go:868-883 | The same over the tables: those survive a reliable completed pass that every block ranging over their kind spares. |
| ScaleDown.DroppedNatStays | controllers/universe_controller.go:964-979 | A dropped NAT outlives every pass while the spec has a router of its name. |
| ScaleDown.DroppingSubnetworkDeletesNetwork | controllers/universe_controller.go:329-344 | A run from an empty store and a safe spec in which dropping subnetworks makes the next pass delete a network that the spec describes. |
| ScaleDown.TwoSubnetworksAreEnough | controllers/universe_controller.go:329-344 | One network and two subnetworks suffice for such a run. |
| Isolation.PassBeside | controllers/sync.go:64-71 | A pass beside resources its universe neither describes nor labels does what it does without them and leaves them alone. |
| Isolation.PassesCommute | controllers/universe_controller.go:1200-1200 | Passes of two separate universes commute on the store and return and record the same in either order. |
| Isolation.StaySeparate | controllers/utils.go:7-19 | A pass keeps two universes separate, so the former holds along any sequence of passes. |
| Interleaving.BlocksAreTheirTasks | controllers/universe_controller.go:103-1075 | A walk over the blocks is the sequence of its turns: one item or one prune each. |
| Interleaving.TurnBeside | controllers/universe_controller.go:106-183 | A turn does to its worker's part of the store what it would do to it alone, and keeps the parts apart. |
| Interleaving.PassAmongTurns | controllers/universe_controller.go:1200-1200 | Whatever the schedule of two workers' turns, a pass returns and records what it does when nobody else is there. |
| Interleaving.InterleavingIsSequential | controllers/universe_controller.go:1200-1200 | Whatever the schedule, two passes leave the store that one after the other would. |
| Expiry.ExpiresOnSomeClock | controllers/universe_controller.go:1158-1158 | Exactly which universes some second of the minute finds expired. |
| Expiry.OnlyShortTimesExpire | controllers/universe_controller.go:1158-1158 | A time to live expires any universe at all if and only if it is below 59. |
| Expiry.PassExpiresExactly | controllers/universe_controller.go:1158-1164 | Exactly when a pass over a complete spec leaves its universe terminating, and when it fails because the deletion was refused. |
| Expiry.ExpiredPassCondemns | controllers/universe_controller.go:1158-1168 | The expiring pass requests the deletion, and its own record of the generation is then refused. |
| Expiry.ExpiryTakesTwoPasses | controllers/universe_controller.go:1128-1164 | The next pass lets the universe go; neither deletes a resource of its spec. |
| Names.NameReadsBack | controllers/trigger_controller.go:337-339 | The part after the last dash and the part before it are the pull request's number and repository. |
| Names.NamesAreInjective | controllers/trigger_controller.go:337-339 | Two pull requests share a universe name if and only if repository name and number are equal. |
| Names.NameExample | controllers/trigger_controller.go:337-339 | A name in full. |
| Names.NegativeNumbersCollide | controllers/trigger_controller.go:337-339 | With negative numbers names are not injective. |
| Preview.PreviewIsSafe | controllers/trigger_controller.go:409-583 | The wiring of the prune blocks deletes nothing of the spec of a pull request's universe. |
| Preview.PreviewMissing | controllers/trigger_controller.go:409-583 | The spec describes six resources. |
| Preview.PreviewTakesSevenPasses | controllers/trigger_controller.go:391-594 | From an empty store six passes create one resource each and the seventh completes; the universe does not expire. |
| References.ReferencesResolve | controllers/universe_controller.go:103-1075 | In every state of every run from an empty store with a fixed spec, a field that names a resource of an earlier kind is stored as specified and that resource exists. |
| References.PreviewReferencesResolve | controllers/trigger_controller.go:416-583 | Every network, subnetwork, cluster and router reference in a pull request's universe resolves in every state of every such run. |
| Services.CollectServices | controllers/trigger_controller.go:120-128 | The loop over the labels collects the label names and the deployments of the service labels in order. |
| Services.ServiceLabels | controllers/trigger_controller.go:124-125 | Which labels match: "svc/" somewhere, followed by a character that ends no line. |
| Services.ServicesStandForLabels | controllers/trigger_controller.go:126-126 | The services are what the service labels map to, the empty name for an unknown one, one each. |
| Services.AnnotationReadsBack | controllers/trigger_controller.go:404-404 | Splitting the joined list gives it back for comma-free names; an empty list reads as one empty name. |
| Services.PreviewCluster.MarkServices | controllers/universe_controller.go:496-513 | The nested loops mark exactly the deployments whose name is in the annotation and for which some listing and update succeed. |
| Services.ServicesReachDeployments | controllers/universe_controller.go:496-513 | Across both controllers: the marked deployments are those of the pull request's service labels. |
| TriggerController.RemoveLabel | controllers/trigger_controller.go:152-157 | The in-place removal shifts the tail over the first occurrence and nothing else. |
| TriggerController.SwapLabels | controllers/trigger_controller.go:151-157 | Appending one label and removing the other. |
| Trigger.EditedLabels | controllers/trigger_controller.go:302-308 | The edited list has the added label, lacks the removed one, and keeps the user's labels. |
| TriggerController.TriggerReconciler.NewUniverse | controllers/trigger_controller.go:371-594 | Service account first, then create the universe only if it is absent; success means that it exists. |
| TriggerController.TriggerReconciler.HandleOpen | controllers/trigger_controller.go:119-165 | The body of the loop over open pull requests. |
| TriggerController.TriggerReconciler.HandleClosed | controllers/trigger_controller.go:273-317 | The body of the loop over closed pull requests; the universe goes at once or lingers as terminating. |
| TriggerController.TriggerReconciler.HandleListed | controllers/trigger_controller.go:119-119 | A loop over listed pull requests, each handled with the labels it was listed with. |
| TriggerController.TriggerReconciler.ReconcileRepository | controllers/trigger_controller.go:111-317 | One repository: list and handle the open ones, then list and handle the closed ones. |
| TriggerController.TriggerReconciler.Reconcile | controllers/trigger_controller.go:110-318 | The loop over the repositories. |
| Trigger.RunsKeepOrder | controllers/trigger_controller.go:389-594 | Over every run, whichever calls fail and however long deleted universes linger, effective creations and deletions alternate per universe name, the history tells whether the universe is live, and an existing one has the spec of NewUniverse. |
| Trigger.HandlingKeepsLabels | controllers/trigger_controller.go:129-164 | Exactly when the labels still tell the truth after a pull request is handled: creation or deletion and label edit succeed or fail together, and nothing is created while the old universe terminates. |
| Trigger.HandleKeepsConsistency | controllers/trigger_controller.go:389-391 | When every call succeeds, handling keeps the protocol consistent if and only if the pull request's old universe does not still terminate. |
| Trigger.HandlingIsLocal | controllers/trigger_controller.go:278-315 | Handling changes no other pull request and no other universe. |
| Trigger.LabelsAfterHandling | controllers/trigger_controller.go:151-157 | In the words of the protocol: an open request ends with preview-created and without preview-closed, a closed one the other way round. |
| Trigger.ClosingTearsDown | controllers/trigger_controller.go:279-285 | A handled closed pull request has no live universe if the deletion succeeds, and one that lingers still exists. |
| Trigger.AccountIsCreated | controllers/trigger_controller.go:372-385 | The service account appears exactly when a preview is asked for without it and its creation succeeds. |
| Trigger.SecondPreviewIsCreated | controllers/trigger_controller.go:372-388 | After the first preview has created the account the next pull request gets its universe. |
| Trigger.EditOverwritesLateLabels | controllers/trigger_controller.go:158-160 | A successful edit writes back the labels of the listing. |
| Trigger.StepKeepsConsistency | controllers/trigger_controller.go:119-165 | Every such step keeps: at most one of the two controller labels, preview-created exactly when the universe is live, listings still right about both. |
| Trigger.RunsKeepConsistency | controllers/trigger_controller.go:273-317 | The same in every state of every run of user actions, listings, handlings and vanishing universes. |
| Trigger.FirstWorldIsConsistent | controllers/trigger_controller.go:371-388 | The empty world starts such runs if and only if the service account is there; every name is in order in it. |
| Trigger.HandlingAchieves | controllers/trigger_controller.go:129-132 | What handling achieves, from the labels alone; a new universe's annotation splits back into the services of the labels. |
| Trigger.HandlingSettles | controllers/trigger_controller.go:129-129 | A handled pull request listed again with its new labels is left alone. |
| Trigger.PassAchieves | controllers/trigger_controller.go:110-318 | After a successful pass every listed open pull request with the preview label has its universe, every listed closed one with it has none that is live, and no other universe or pull request changed. |
| Trigger.PassesAchieve | controllers/trigger_controller.go:110-318 | The same for a pass over all repositories. |
| Trigger.FirstPreviewIsLost | controllers/trigger_controller.go:372-388 | Without the service account the universe is not created although the label goes on, and no later handling creates it while the label stays. |
| Trigger.EarlyPreviewIsLost | controllers/trigger_controller.go:389-391 | The same for a pull request handled while its old universe still terminates. |
| Ingress.OnlyFirstLabelChanges | controllers/universe_controller.go:1192-1194 | The suffix goes behind the first label, the other labels stay, for every host and suffix; a dotless host gets an empty last label. |
| Ingress.LabelCountKept | controllers/universe_controller.go:1192-1194 | The number of labels is kept if and only if the host has a dot and the suffix has none. |
| Ingress.HostsCollide | controllers/universe_controller.go:1192-1194 | Two hosts of one universe are rewritten alike if and only if they are equal up to the final dot of a dotless name. |
| Ingress.SuffixesSeparate | controllers/universe_controller.go:1192-1194 | Different universes give one host different names. |
| Ingress.RewritingNeverSettles | controllers/universe_controller.go:1171-1190 | Every rewriting makes a host longer, so repeated passes never agree. |
| Ingress.Ingresses.Update | controllers/universe_controller.go:1184-1184 | An update is accepted only for the current version, and raises it when it changes the object. |
| Ingress.Ingresses.PatchOne | controllers/universe_controller.go:1181-1187 | The loop over the rules of one ingress stores at most its first rewriting, and succeeds if and only if there is no second rule and nothing else is refused. |
| Ingress.Ingresses.Patch | controllers/universe_controller.go:1171-1190 | The call succeeds if and only if every ingress has at most one rule and its update is accepted; otherwise everything before the first other ingress is rewritten once, of that one at most the first host, and nothing behind it. |
| Ingress.TwoRulesHoldUpTheRest | controllers/universe_controller.go:1180-1188 | However often the call is repeated, an ingress with two rules keeps its later hosts and all ingresses behind it keep theirs. |
| Ingress.OneRuleIsRewrittenEachTime | controllers/universe_controller.go:1180-1188 | With one rule each and nothing refused every call rewrites every host once more. |
| Poll.WaitWithBackoffWithRetries | pkg/poll/poll.go:58-89 | The loop follows the trace and the clock specification for every environment. |
| Poll.WaitWithBackoff | pkg/poll/poll.go:42-44 | The wrapper without tolerated errors. |
| Poll.Wait | pkg/poll/poll.go:36-38 | The wrapper with the default backoff. |
| Poll.WaitWithRetries | pkg/poll/poll.go:49-51 | The wrapper with the default backoff and an error budget. |
| Poll.PollsIsDeterministic | pkg/poll/poll.go:66-88 | The environment determines the number of calls and the result. |
| Poll.TurnEndsPolling | pkg/poll/poll.go:66-88 | The first turn that does not go on ends the polling, with the result its error, its success or the done context gives; errors are counted as a set. |
| Poll.DoneEndsPolling | pkg/poll/poll.go:83-87 | No call follows a turn that finds the context done, and the loop ends there. |
| Poll.WhatEndsPolling | pkg/poll/poll.go:66-88 | Nil, an error, the context's error, or a loop that still runs: each if and only if, by the first turn that does not go on. |
| Poll.ErrorsAreTolerated | pkg/poll/poll.go:69-73 | At most numRetries errors are tolerated, all of them retryable. |
| Poll.SleepEndsByDeadline | pkg/poll/poll.go:77-82 | In every turn of a run the timer is set to end by the deadline, and the next call starts when it fires. |
| Poll.NoDeadlineWaitsInFull | pkg/poll/poll.go:77-82 | Without a deadline every call waits for the whole delay. |
| Poll.EarlyCallsWaited | pkg/poll/poll.go:77-87 | A call before the deadline has waited for every delay before it in full. |
| Poll.EarlyCallsBound | pkg/poll/poll.go:29-35 | With the default backoff and T >= 12.7 s at most 7 + ceil((T - 12.7) / 10) calls start before the deadline. |
| Poll.ResourceWaitsBound | pkg/common/common.go:21-21 | At most 366 calls for the waits of sixty minutes. |

## Left out

- Lifecycle.StepKeepsTruth: agreement does not include the annotations of SQL instances and databases, because those are not set on creation (`Resources.NewObjectAnnotations`).
- Lifecycle.RunKeepsTruth: the same; and it assumes that the spec is edited only after the first completed pass and that the updates that matter are accepted, each of which is shown to be needed (`Drift.EarlyEditIsLost`, `Lifecycle.RecordIsTruthfulIffAccepted`).
- UniverseController.UniverseReconciler.EnsureItem: errors of Get other than NotFound, where the code goes on with an empty object, are not modelled.
- UniverseController.UniverseReconciler.Reconcile: the status writes of repository and pull request at its head, the backups, restores and ingresses before the finalizer, and reads from the manager's cache that may be stale are not part of the pass.
- Isolation.PassesCommute: a pass is one step here. `Interleaving` takes turns of one item or one prune; the API calls within a turn are not interleaved.
- Pass.Reconcile: at most one effective user action lands while a pass runs, further ones come between passes. Once one has landed every later conditional write of the pass is refused, so a further action acts as if it came after the pass, except between it and the deletion of an expired universe.
- Ingress.Ingresses.Patch: a failed listing of the ingresses, which ends the call at once, is not an input.
- Services.PreviewCluster.MarkServices: nil and empty annotation maps are not distinguished.
- TriggerController.TriggerReconciler.Reconcile: the trigger's own status, its cron job, comments on pull requests and the GitHub client are not modelled; a listing has what the first page has, and within the watched repositories a name has one owner.
- Poll.EarlyCallsBound: calls that start after the deadline are not bounded, because the select chooses freely once both timer and context are ready.
- Go specs are maps of their set fields, and statuses and kinds are datatypes; the literal fields of a preview spec are reduced to names and references.
- Deletion of a resource of a universe is immediate: its asynchronous deletion, and owner references with garbage collection, are not modelled. A pass that lets a universe go deletes none of its resources itself.
- Waiting for resources (errors are only logged, so Healthy does not mean that a wait succeeded), Google Cloud clients, Helm, Velero, add-ons and admin tokens.
- The API server is assumed to raise the generation of a universe on spec edits and on the request of its deletion.
