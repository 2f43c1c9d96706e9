# Verified models of the toolkit's stateful algorithms

The toolkit is mostly command-line plumbing around a handful of real algorithms over mutable state. These
Dafny modules model those algorithms and prove what they promise, for all inputs and at every point where a
command, a request or a write can fail.

- **Layered configuration.** A loaded YAML value is a tree (`Values`). `Layers` states the merge as a function and
  proves its laws; `PyDicts` models the dictionaries the toolkit really holds, objects that refer to one another,
  and `Configuration`, `PartitionDicts` and `ContactEmailDicts` prove the in-place operations against the
  functions. `DottedKeys` covers flattening to dotted keys and writing them back, `Partition` the split of a secrets
  file into shared and own parts, `Extraction` and `ExtractionFiles` the move of the shared part to
  `common.enc.yaml` as a machine over files that may stop after any write, `ContactEmail` the derived addresses.
- **Workflow reachability** (`CallGraph`, `DeliveryHealth`). The search with its path-scoped set of seen keys, against
  chains of calls in a graph that may have cycles; then workflow files as such graphs.
- **Docker reclaim** (`DockerReclaim`, `DockerDaemon`, `NodeReclaim`). The planner, its execution on a daemon that
  refuses to drop attached volumes, and the pause and restart of the runners around it.
- **Plan and apply** (`BoardSweep`, `BoardStreams`, `BoardParts`, `BranchProtection`, `SecretStore`, `SecretSync`).
  `Batches` models a remote that may land any part of a batch that fails, `Indexing` the registry loops.
- **Snapshot and restore, repoint and restore** (`DriftCheck`, `KillSwitch`).
- **Two protocols** (`Pagination`, `TokenRotation`).

`Strings`, `Ordering`, `Selection`, `Keyed` and `Sequences` hold what several modules need of `str.split`, `sorted`,
filtering, dicts kept by the order of their keys, and walking a list.

Remote calls are methods that choose their outcome freely: a call may fail, and a call that fails may still have been
carried out. They are counted or recorded, so that a contract can say that nothing is reported as a failure unless a
call failed. The time of day, decrypted contents, regular expressions and the normalisation of generated files are
parameters.

Where a promise is false of the code, the module keeps the code and proves exactly when the promise holds, with an
input on which it fails unless the condition names it:

| promise | holds exactly when |
|---|---|
| extraction changes nothing the environment reads | no leaf resurfaces or is uncovered (`Extraction.SecondWritePreserves`); agreeing shapes suffice |
| extraction changes other environments only at and below shared places | no other path strays: the shared part lays no mapping over a leaf there that the environment does not set itself (`Extraction.OtherEnvironment`) |
| a stopped extraction can be run again | every file was sealed, or only common.enc.yaml was left in the clear and the shared part speaks for every leaf it held (`ExtractionFiles.ExtractTwice`, `ExtractionFiles.RerunReads`) |
| merging is associative | no leaf of the middle layer separates two mappings that the top one does not cover (`Layers.MergeAssociates`) |
| flattening and setting rebuilds the pruned tree | its keys have no dot, and the empty top-level key holds no mapping (`DottedKeys.FlattenRoundTrip`) |
| the search is graph reachability | if any chain of calls delivers, then one that enters no file twice ends in a step that publishes, or promotes and calls no file of the chain (`CallGraph.AgreesIff`); one file per key and one thing per step suffice |
| after a prefix of a sweep the next plan is the suffix | no issue still to be parked is listed twice (`BoardSweep.SuffixIffParkedOnce`) |
| a second secret sync is all unchanged | no value has a carriage return and ids do not repeat with other values (`SecretSync.SyncTwice`) |
| a drift check that completes leaves no trace | every file the output directory held was listed (`DriftCheck.NoTraceIffAllListed`) |
| only `strict` and the contexts change | the live status checks carry nothing else (`BranchProtection.OnlyDeclaredIffNoOthers`) |
| the kill-switch proof leaves the hub's billing alone | no message went out, or it went out at the scratch project and was delivered for good before the switch was aimed back, or the switch is still aimed there (`KillSwitch.RunProof`) |
| a node reclaim leaves every runner running | each runner ran when the restart began or had its start carried out; a start whose answer is lost ends the restart (`NodeReclaim.AllRunningIff`, `NodeReclaim.SecondNeverAsked`) |
| a rotation that succeeds lets the next provision mint | the key was recorded when the vault was read, or no provision recorded it before the revoke (`TokenRotation.StrandedIffMintedMeanwhile`, `TokenRotation.StrandedInSilence`) |
| the paged listing is whole | a page holds as many as asked for, or one page holds all (`Pagination.WholeIffPageHolds`) |

## Model

| member | source | states |
|---|---|---|
| Layers.MergeResolves | toolkit/features/configuration.py:116-138 | a leaf reads as in the override wherever the override has a value or a leaf on the way, else as in the base |
| Layers.EmptyMappingOverrides | toolkit/features/configuration.py:116-138 | an empty mapping keeps a mapping whole and replaces a scalar |
| Layers.RemergeSame | toolkit/features/configuration.py:116-138 | merging the same overrides again changes nothing |
| Layers.FoldResolves | toolkit/features/configuration.py:140-160 | over any list of layers every path reads as in the last layer that speaks there, and as nothing if none does |
| Layers.MergeAssociates | toolkit/features/configuration.py:132-138 | grouping does not matter if and only if no middle leaf lies between mappings left uncovered |
| Layers.SameShapeIs | toolkit/features/configuration.py:132-138 | layers agree in shape if and only if no path is a mapping in one and a leaf in the other |
| Layers.SameShapeAssociates | toolkit/features/configuration.py:132-138 | layers that agree on which paths are mappings associate |
| Layers.MergeIsNotAssociative | toolkit/features/configuration.py:132-138 | a leaf between two mappings tells the groupings apart |
| Layers.MergeSpeaks | toolkit/features/configuration.py:132-138 | exactly where a merged layer speaks: where the upper does, or the lower does and is not overlaid by a mapping |
| Configuration.DeepUpdate | toolkit/features/configuration.py:116-138 | the in-place recursive merge makes the target read as the merged tree, reaches only its own and new dictionaries, and leaves the overrides alone |
| ContactEmailDicts.GetMergedConfig | toolkit/features/configuration.py:140-167 | four in-place merges and the fill give the fold of the four layers with the derived addresses |
| Configuration.SetNestedKey | toolkit/features/configuration.py:324-334 | the cursor walk writes a leaf or a mapping at the path, making or replacing mappings on the way |
| Configuration.SetAtGets | toolkit/features/configuration.py:324-334 | such a write shows at its path and below, makes mappings above it and leaves every other path alone |
| DottedKeys.GetSecretByPath | toolkit/features/configuration.py:245-261 | the walk finds exactly the scalar leaf at the dotted path and returns its text; containers and nulls read as nothing |
| DottedKeys.BatchUpdate | toolkit/features/configuration.py:387-390 | the loop sets every dotted key to its leaf or mapping, in some order, in place |
| DottedKeys.SetAllResolves | toolkit/features/configuration.py:387-390 | writes whose paths do not run through one another land side by side in any order, and nothing else appears |
| DottedKeys.FlattenDict | toolkit/features/credentials.py:290-300 | the flat dict has an entry for every leaf path and every entry is a leaf's |
| DottedKeys.DotsPart | toolkit/features/configuration.py:324-326 | a key is taken apart at its dots |
| DottedKeys.FiledUnder | toolkit/features/credentials.py:290-300 | the flat key of a path is its keys joined by dots |
| DottedKeys.FlattenRoundTrip | toolkit/features/credentials.py:290-300 | flattening and setting every key into an empty dict rebuilds the pruned input if and only if dotted keys can name its paths |
| DottedKeys.DottedKeyLost | toolkit/features/configuration.py:324-326 | a key with a dot comes back as two |
| DottedKeys.PruneResolves | toolkit/features/credentials.py:881-890 | pruning changes no leaf |
| DottedKeys.LeavesDecide | toolkit/features/credentials.py:881-890 | pruned trees with the same leaves are the same tree |
| PartitionDicts.PruneEmptyDicts | toolkit/features/credentials.py:881-890 | the in-place recursion leaves the pruned tree in the same dictionaries |
| PartitionDicts.DeepCopy | toolkit/features/credentials.py:834-834 | a copy of new dictionaries that reads the same |
| PartitionDicts.PopPath | toolkit/features/credentials.py:863-872 | the cursor walk pops exactly the path, and nothing when the way is missing |
| PartitionDicts.PartitionSecrets | toolkit/features/credentials.py:812-878 | returns the two parts; the input is not written although the shared part refers into it; the own part is all new dictionaries |
| Partition.SharedPlacesAre | toolkit/features/credentials.py:812-860 | the four top-level keys and the four nested paths that are shared, one by one |
| Partition.SharedKept | toolkit/features/credentials.py:812-878 | at and below a shared place the shared part is what was there, empty mappings included |
| Partition.PartitionSplits | toolkit/features/credentials.py:812-878 | a leaf is in the shared part if and only if a shared key or path is its prefix, else in the own part; merged in either order the parts have exactly the original leaves |
| Partition.PartsUnique | toolkit/features/credentials.py:812-878 | the split is a function of its input |
| Partition.PartsAgain | toolkit/features/credentials.py:812-878 | splitting the own part again finds nothing shared and leaves it as it is |
| Extraction.Precedence | toolkit/features/configuration.py:140-160 | the environment's secrets decide a path, then the common secrets, then the environment's values, then the common ones |
| Extraction.FirstWriteAt | toolkit/features/credentials.py:791-795 | after the first write exactly the paths that resurface read differently |
| Extraction.FirstWritePreserves | toolkit/features/credentials.py:791-795 | between the writes every path reads as before if and only if nothing resurfaces |
| Extraction.SecondWritePreserves | toolkit/features/credentials.py:802-810 | after both writes: if and only if moreover nothing is uncovered |
| Extraction.WithoutCommonPreserves | toolkit/features/credentials.py:791-795 | with common.enc.yaml unreadable every path reads as before if and only if it decided none otherwise than the plain files |
| Extraction.WithoutSourcePreserves | toolkit/features/credentials.py:802-810 | with the source's own file unreadable after the first write: if and only if nothing resurfaces and the lower layers repeat every own value |
| Extraction.SameShapesPreserve | toolkit/features/credentials.py:754-810 | with layers that agree on shapes every path reads the same before, between and after the writes |
| Extraction.OtherEnvironmentAt | toolkit/features/credentials.py:754-810 | away from the shared places another environment's reading changes exactly at the paths that stray |
| Extraction.OtherSharedAt | toolkit/features/credentials.py:754-810 | at and below a shared place it changes exactly where that environment is silent and the lower layers gave another value than the source's, or a leaf of common.enc.yaml that hid a plain one is laid over |
| Extraction.OtherEnvironment | toolkit/features/credentials.py:754-810 | another environment changes at and below shared places only, if and only if no other path strays |
| Extraction.SameShapesStayShared | toolkit/features/credentials.py:754-810 | with lower layers that agree in shape with the extracted secrets no path strays |
| Extraction.ResurfacingHappens | toolkit/features/credentials.py:791-795 | a configuration where a hidden leaf of common.yaml comes back after the first write |
| Extraction.StrayingHappens | toolkit/features/credentials.py:791-795 | in the same configuration an environment that sets nothing sees the leaf come back, which no shared place covers |
| Extraction.UncoveringHappens | toolkit/features/credentials.py:874-876 | a configuration where pruning an empty mapping uncovers a leaf of common.yaml |
| ExtractionFiles.ExtractCommonSecrets | toolkit/features/credentials.py:754-810 | it goes ahead exactly when SOPS is there and something shared was found, up to the first encryption that fails, and succeeds exactly when none does; wherever it stops the files are those of one stage, and a failed encryption leaves plain text behind |
| ExtractionFiles.FilesAre | toolkit/features/credentials.py:784-810 | at every stage: what common.enc.yaml and the environment's file hold, in the clear or sealed, and that no other file is touched |
| ExtractionFiles.StagesPreserve | toolkit/features/credentials.py:784-810 | at the two stages with sealed files, exactly when the source environment reads as before |
| ExtractionFiles.ClearStagesPreserve | toolkit/features/credentials.py:784-810 | at the two stages where an encryption failed and left a file in the clear, exactly when the source environment reads as before |
| ExtractionFiles.SameShapeStages | toolkit/features/credentials.py:784-810 | with agreeing shapes every stage with sealed files reads as before |
| ExtractionFiles.OthersSee | toolkit/features/credentials.py:784-810 | once common.enc.yaml is written, whatever became of the source's own file, exactly the straying paths of another environment read differently away from shared places |
| ExtractionFiles.OthersSeeSharedOnly | toolkit/features/credentials.py:784-810 | at every such stage other environments change at and below shared places only, if and only if no other path strays |
| ExtractionFiles.OthersSeeClear | toolkit/features/credentials.py:784-795 | while common.enc.yaml is in the clear, exactly the paths it decided otherwise than the plain files read differently in another environment |
| ExtractionFiles.SecondRunFinds | toolkit/features/credentials.py:764-795 | what a second run splits and merges, stage by stage: the same parts where the source is sealed, nothing shared after the source was cleaned or left in the clear |
| ExtractionFiles.ExtractTwice | toolkit/features/credentials.py:754-810 | a second run goes on from sealed files to what one run would have written; with common.enc.yaml in the clear it writes the shared part alone and the rest is lost; with the source cleaned or in the clear it writes nothing and fails |
| ExtractionFiles.RerunReads | toolkit/features/credentials.py:791-795 | the shared part alone reads as the merged secrets if and only if it speaks for every leaf of common.enc.yaml |
| ContactEmailDicts.InjectContactEmail | toolkit/features/configuration.py:169-216 | the in-place fill succeeds and leaves the tree exactly as specified, or raises where a step meets no mapping |
| ContactEmailDicts.FillAt | toolkit/features/configuration.py:188-206 | for any address: a chain of setdefault ends in a blank place being filled and a true one being kept, or fails at a leaf on the way |
| ContactEmail.FillEach | toolkit/features/configuration.py:211-216 | the loop gives the address to exactly the users that have an identity and no address, changes nothing else, and fails exactly if a user is no mapping |
| ContactEmail.InjectFills | toolkit/features/configuration.py:169-216 | without a declared address nothing changes; with one each of the three derived places holds what it held, if that was true, and the address otherwise, and each declared identity without an address has it |
| ContactEmail.InjectFails | toolkit/features/configuration.py:183-216 | it raises exactly where a leaf stands on the way to a place read or filled, or the users are neither a list of mappings nor empty |
| ContactEmail.InjectTwice | toolkit/features/configuration.py:169-216 | filling twice is filling once |
| ContactEmail.InjectKeeps | toolkit/features/configuration.py:169-216 | no truthy value is changed, at any depth |
| ContactEmail.InjectElsewhere | toolkit/features/configuration.py:169-216 | places away from the derived ones read as before |
| CallGraph.Search | toolkit/features/delivery_health.py:195-212 | the loop with recursion decides the path-scoped search, and terminates on cyclic trees by the unvisited keys |
| CallGraph.ReachesExactly | toolkit/features/delivery_health.py:195-212 | for every tree the answer is yes if and only if a chain that enters no file twice leads to a step that delivers and does not itself call a file of the chain |
| CallGraph.AgreesIff | toolkit/features/delivery_health.py:178-212 | for every tree the search agrees with reachability over chains of any shape if and only if, when any chain delivers, one that enters no file twice ends in a step that is not passed over |
| CallGraph.CoherentAgreesIff | toolkit/features/delivery_health.py:178-212 | where a key names one file, the two part exactly when some chain that enters no file twice delivers and every such chain ends in a step that is passed over |
| DeliveryHealth.ReachesDelivery | toolkit/features/delivery_health.py:178-212 | the search over workflow files, from nothing seen |
| DeliveryHealth.StepsAre | toolkit/features/delivery_health.py:157-166 | the steps of a workflow are the entries of its jobs that are mappings and the calls that jobs make themselves |
| DeliveryHealth.PublisherDelivers | toolkit/features/delivery_health.py:195-198 | a job or a step whose `uses` contains ci-publish.yml delivers |
| DeliveryHealth.PromotionDelivers | toolkit/features/delivery_health.py:206-208 | a step whose `run` contains deployment promote, and that calls nothing by text, delivers |
| DeliveryHealth.CallDelivers | toolkit/features/delivery_health.py:199-205 | a job or a step that calls a file which delivers, delivers |
| DeliveryHealth.NothingDelivers | toolkit/features/delivery_health.py:195-209 | without such a call, publication or promotion nothing delivers |
| CallGraph.ReachesIsReachability | toolkit/features/delivery_health.py:178-212 | with one file per key and one thing per step the answer is plain graph reachability over chains of any shape |
| CallGraph.CutLoop | toolkit/features/delivery_health.py:192-207 | a file entered again can be left the first time, so cycles add nothing |
| CallGraph.SkippedPromotion | toolkit/features/delivery_health.py:203-205 | a step that calls a file on the path and also promotes is skipped whole, and the search misses it |
| CallGraph.SkippedFile | toolkit/features/delivery_health.py:199-207 | two references with one key but two files make the search miss the second, although no step does two things |
| DeliveryHealth.PromotionMissed | toolkit/features/delivery_health.py:196-209 | a workflow that calls a file whose step calls itself and promotes is not found |
| DeliveryHealth.FileMissed | toolkit/features/delivery_health.py:169-207 | references that differ after the `@` and resolve to two files make the search miss a promotion |
| DeliveryHealth.DotSlash | toolkit/features/delivery_health.py:169-175 | the `./` prefix makes no other key |
| DeliveryHealth.SameKey | toolkit/features/delivery_health.py:169-175 | what follows the first `@` is not part of the key |
| DeliveryHealth.CleanKey | toolkit/features/delivery_health.py:169-175 | a path without empty or dot parts is its own key |
| DeliveryHealth.RootKey | toolkit/features/delivery_health.py:169-175 | before such a path one leading slash is kept, two are kept, and three come down to one |
| DeliveryHealth.RootAlone | toolkit/features/delivery_health.py:169-175 | the root is its own key, with two slashes too, and the empty path has the key of the current directory |
| DeliveryHealth.Watched | toolkit/features/delivery_health.py:215-231 | the watcher itself and exactly the unattended files that the search finds to deliver, for every tree |
| DeliveryHealth.UnattendedIs | toolkit/features/delivery_health.py:118-139 | unattended means some trigger and none of workflow_call, pull_request and pull_request_target |
| DeliveryHealth.WatchesDelivery | toolkit/features/delivery_health.py:215-231 | with one file per key and one thing per step, what is watched is what can reach delivery |
| DockerReclaim.PlanReclaim | toolkit/features/docker_reclaim.py:191-253 | the loops fill the four lists of the plan in sorted order; a negative gate is refused |
| DockerReclaim.BuildersByAge | toolkit/features/docker_reclaim.py:208-225 | a builder goes if and only if it is at least as old as the gate, and is kept if it is younger; no other container is planned |
| DockerReclaim.VolumesByHolders | toolkit/features/docker_reclaim.py:227-246 | a reclaimable volume goes if every container that mounts it is a builder of that age, and is kept otherwise |
| DockerReclaim.PlanSorted | toolkit/features/docker_reclaim.py:208-246 | the four lists are in the order of their names |
| DockerReclaim.CollectHolders | toolkit/features/docker_reclaim.py:232-235 | the dict has the volumes that are mounted, each with exactly the containers that mount it |
| DockerReclaim.VolumesFollowContainers | toolkit/features/docker_reclaim.py:199-205 | a reclaimable volume goes if and only if every container attached to it goes |
| DockerReclaim.PlanAccountsForAll | toolkit/features/docker_reclaim.py:120-132 | every builder and every reclaimable volume is in exactly one of removed and kept |
| DockerReclaim.HigherGateSpares | toolkit/features/docker_reclaim.py:208-225 | raising the gate, or asking earlier, only shrinks what is removed |
| DockerReclaim.ReplanIsTheRest | toolkit/features/docker_reclaim.py:205-253 | however much of a plan was carried out, planning again plans exactly the rest, with the same kept lists |
| DockerReclaim.ReplanIsNothing | toolkit/features/docker_reclaim.py:205-253 | after the whole plan there is nothing left to plan |
| DockerDaemon.Daemon.RemoveVolume | toolkit/features/docker_reclaim.py:329-336 | the daemon's own rule: an attached volume is not removed |
| DockerDaemon.Daemon.SetRunning | toolkit/features/docker_reclaim.py:308-326 | exactly what a stop or start does to the containers; a refused one answers as an absent container does, and a lost one may have been carried out |
| DockerDaemon.PlanFits | toolkit/features/docker_reclaim.py:197-205 | a plan made from what a daemon lists has nothing twice and every holder of a planned volume planned |
| DockerDaemon.CheckedIsTame | toolkit/features/docker_reclaim.py:295-305 | a name that passes the check holds letters, digits, `_`, `.` and `-` alone, but for a newline at its end, which `$` lets through |
| DockerDaemon.TameIsChecked | toolkit/features/docker_reclaim.py:295-305 | every name of letters, digits, `_`, `.` and `-` that starts with a letter or a digit passes, with a newline at its end or without |
| DockerDaemon.Remove | toolkit/features/docker_reclaim.py:329-336 | exactly the planned commands are sent, containers then volumes, up to the first that fails; the daemon never refuses, and wherever the link fails the state is the old one less a known part of the plan, no volume before the last container |
| DockerDaemon.SurvivorsKeepVolumes | toolkit/features/docker_reclaim.py:32-40 | wherever removal stopped, every container left has every volume it had |
| NodeReclaim.SetRunners | toolkit/features/docker_reclaim.py:308-326 | one command a runner is sent in turn, up to the first that does not answer; the containers are exactly what the commands carried out make of them, and it acted on those that are there and answered as carried out |
| NodeReclaim.CommandedAt | toolkit/features/docker_reclaim.py:308-326 | a container is as it was, but for a runner whose command was carried out |
| NodeReclaim.AnsweredOrUntouched | toolkit/features/docker_reclaim.py:308-326 | a runner is as it was told to be if its command was carried out, and as it was if that was refused, lost undone or never sent |
| NodeReclaim.AllRunningIff | toolkit/cli/infra.py:197-205 | after the restart every runner runs if and only if each ran before it or had its start carried out |
| NodeReclaim.SecondNeverAsked | toolkit/cli/infra.py:197-205 | when the answer to the first start is lost, a stopped second runner is never asked to start and stays stopped |
| NodeReclaim.NodeReclaim | toolkit/cli/infra.py:149-208 | it acts exactly with --apply, a gate that is not negative and something to remove or prune; then exactly these commands are sent: stop the runners, remove the plan, look, prune if asked to, each part up to the first failure, and in any case start the runners up to the first start that does not answer; how it exits follows from how they ended; what is gone is part of the plan, no volume before the last container, survivors keep their volumes; success leaves nothing to reclaim, and says nothing of the runners |
| Batches.WriteInBatches | toolkit/features/board_sweep.py:293-302 | each write once in order on success; it fails exactly when a request does, and then whole batches landed and any part of the next; a batch size of zero raises and a negative one writes nothing |
| Batches.SuffixIffNoRepeat | toolkit/features/board_sweep.py:293-302 | what is left after each prefix is the suffix if and only if no write is listed twice |
| BoardSweep.LoadRegistry | toolkit/features/board_sweep.py:75-103 | refuses exactly non-numbers and numbers in both lists; what it accepts has one decision for each number |
| BoardSweep.MakePlan | toolkit/features/board_sweep.py:128-156 | the two loops compute the plan entry by entry |
| BoardSweep.PlannedIff | toolkit/features/board_sweep.py:128-156 | exactly the changes planned: to In Progress and a declared Priority where there is none for an issue that stays, to Backlog for a parked one, each only where the board shows otherwise |
| BoardSweep.PlanJoins | toolkit/features/board_sweep.py:128-156 | entries are planned each for itself, in the order of the registry |
| BoardSweep.MissingAre | toolkit/features/board_sweep.py:128-156 | missing are the registered issues that are not on the board |
| BoardSweep.StatusThenPriority | toolkit/features/board_sweep.py:277-302 | each change's Status is written before its Priority, change by change |
| BoardSweep.SettledIffAsWanted | toolkit/features/board_sweep.py:128-156 | nothing is planned if and only if every registered issue on the board is In Progress with a Priority where one is declared, or in Backlog if it is parked; every entry is planned, settled or missing |
| BoardSweep.Apply | toolkit/features/board_sweep.py:277-302 | Status then Priority of each change in batches; a value its field does not offer fails before anything is written |
| BoardSweep.ReplanIsTheRest | toolkit/features/board_sweep.py:128-156 | whichever writes landed, in whatever order, the next plan writes exactly the others in the same order, even between an item's Status and Priority |
| BoardSweep.ReplanIsNothing | toolkit/features/board_sweep.py:128-156 | after a full apply the plan is empty |
| BoardSweep.SuffixIffParkedOnce | toolkit/features/board_sweep.py:146-154 | after every prefix the next plan is the suffix if and only if no pending parked issue is listed twice |
| BoardSweep.ParkedTwice | toolkit/features/board_sweep.py:84-93 | a registry that parks one issue twice is accepted, and its next plan is not the suffix |
| BoardSweep.PriorityKept | toolkit/features/board_sweep.py:139-144 | no Priority that is set is overwritten and no issue outside the registry is touched |
| BoardSweep.PlanCounts | toolkit/features/board_sweep.py:128-156 | planned and settled entries add up to the same and the missing ones stay the same |
| BoardSweep.OverlapNeverSettles | toolkit/features/board_sweep.py:91-93 | a number in both lists would never settle, which is why loading refuses it |
| BoardSweep.Sweep | toolkit/features/board_sweep.py:128-302 | plan and apply: wherever it stopped the next plan is what did not land |
| BoardStreams.LoadStreams | toolkit/features/board_streams.py:101-115 | accepts exactly named, distinct streams with no prefix in two places, and then the table inverts the lists of prefixes |
| BoardStreams.LoadOverrides | toolkit/features/board_streams.py:117-125 | accepts exactly numbers that name declared streams |
| BoardStreams.LastOverrideCounts | toolkit/features/board_streams.py:117-125 | of override keys that are one number the last counts, and nothing else is in the table |
| BoardStreams.MakePlan | toolkit/features/board_streams.py:199-212 | the loop sorts items into changes, unplaced and settled |
| BoardStreams.PlannedIff | toolkit/features/board_streams.py:199-212 | an item gets a change if and only if its stream is another than the board shows, and is unplaced if and only if it has none |
| BoardStreams.PlanJoins | toolkit/features/board_streams.py:199-212 | items are planned each for itself, in the order of the board |
| BoardStreams.PlacedBy | toolkit/features/board_streams.py:161-212 | an override decides over the title, then the prefix of the title if some stream has it, else the item is unplaced; what is decided is written exactly where the board shows otherwise |
| BoardStreams.PlanAccountsForAll | toolkit/features/board_streams.py:199-212 | every item is changed, unplaced or settled |
| BoardStreams.PlacedInDeclared | toolkit/features/board_streams.py:161-168 | whatever is written is a declared stream |
| BoardStreams.Apply | toolkit/features/board_streams.py:402-412 | each change written once; no field or a missing option fails before anything is written |
| BoardStreams.ReplanIsTheRest | toolkit/features/board_streams.py:199-212 | whichever writes landed, the next plan changes exactly the others in order, with the same unplaced items and what landed counted as unchanged |
| BoardStreams.ReplanIsNothing | toolkit/features/board_streams.py:199-212 | after all of them no change is left and unchanged grew by their number |
| BoardStreams.SuffixIffPendingOnce | toolkit/features/board_streams.py:199-212 | after every prefix the next plan is the suffix if and only if no pending item is listed twice |
| BoardStreams.PlanAndApply | toolkit/features/board_streams.py:199-412 | plan and apply: refused exactly without the field or a needed option, failed exactly when a request fails; wherever it stopped the next plan is what did not land |
| Indexing.AddGroup | toolkit/features/board_streams.py:135-140 | a group of keys goes in if and only if none is forbidden and none comes twice |
| Indexing.OnceIs | toolkit/features/board_streams.py:101-141 | no key is accepted twice: not within one group and not in two |
| Keyed.PutInPlace | toolkit/features/board_sweep.py:75-83 | assigning to a key that is there leaves the order of a dict as it was |
| BoardParts.LoadParts | toolkit/features/board_streams.py:127-141 | accepts exactly numbers with no child twice and none its own parent; then `child_parent` is the inverse of the lists |
| BoardParts.WellOrderedOneParent | toolkit/features/board_streams.py:138-140 | no child is under two parents, even when a parent is listed twice |
| BoardParts.PlanParts | toolkit/features/board_streams.py:475-505 | the nested loops compute links, linked, conflicts, missing and closed |
| BoardParts.PlannedIff | toolkit/features/board_streams.py:482-498 | a link is planned if and only if it is declared, between issues that exist, to an open parent, of a child that has none |
| BoardParts.PlanJoins | toolkit/features/board_streams.py:475-505 | parts are planned each for itself, in the order of the registry |
| BoardParts.ChildrenJoin | toolkit/features/board_streams.py:486-498 | the children of an open parent are planned each for itself, in the order listed |
| BoardParts.ConflictsAre | toolkit/features/board_streams.py:482-498 | a conflict is exactly a child listed under an open parent that stands under another |
| BoardParts.MissingAndClosedAre | toolkit/features/board_streams.py:478-498 | missing are exactly the parents, and the children of open parents, that are not there; closed are exactly the parents that are not open |
| BoardParts.EveryChildOnce | toolkit/features/board_streams.py:475-505 | each child of an open parent has one outcome, so what is in none of the lists is counted as linked |
| BoardParts.ReplanIsTheRest | toolkit/features/board_streams.py:475-505 | whichever links landed, the next plan adds exactly the others; conflicts, missing issues and closed parents are the same |
| BoardParts.ParentsKept | toolkit/features/board_streams.py:475-522 | no parent is replaced, and a child that gets one gets the one declared for it |
| BoardParts.ApplyParts | toolkit/features/board_streams.py:515-522 | links land in order up to the first failure |
| BoardParts.LinkParts | toolkit/features/board_streams.py:475-522 | plan and apply: it fails exactly when a request does; wherever it stopped the next plan is what did not land |
| SecretSync.DestroySuperseded | toolkit/features/gcp_secret_sync.py:238-259 | nothing is added, whatever is destroyed has a newer enabled version, and a full cleanup leaves at most one |
| SecretSync.SyncItem | toolkit/features/gcp_secret_sync.py:262-291 | dry runs write nothing; updated and created leave the newest version equal to the value, unchanged one that reads as it; failed means exactly that the call that was to write it failed; at most one version is added |
| SecretSync.SyncItems | toolkit/features/gcp_secret_sync.py:305-307 | every item is attempted: as many fail as calls that were to write a value; no enabled version of any secret disappears without a newer enabled one |
| SecretSync.SyncAll | toolkit/features/gcp_secret_sync.py:294-307 | every input has one result, and empty or unreadable ones fail without being delivered |
| SecretSync.DeliverableIs | toolkit/features/gcp_secret_sync.py:108-235 | exactly the catalog values that are not empty and the spoke fields that could be read are delivered, each under its own id |
| SecretSync.DeliverableInOrder | toolkit/features/gcp_secret_sync.py:294-307 | catalog values are delivered first, then the spoke fields, each in the order given |
| SecretSync.SyncTwice | toolkit/features/gcp_secret_sync.py:262-307 | a second sync, on a store that answers, completes whatever failed before; after a first without failure it is all unchanged if and only if no delivered value has a carriage return and equal ids have equal values; all unchanged, it leaves the store as it found it |
| SecretSync.UnchangedIsExact | toolkit/features/gcp_secret_sync.py:270-273 | an unchanged secret is byte for byte the value if and only if its newest version has no carriage return |
| SecretSync.NeverRecognised | toolkit/features/gcp_secret_sync.py:102-108 | a value with a carriage return never reads back as itself |
| SecretSync.TranslatedReturn | toolkit/features/gcp_secret_sync.py:89-98 | a carriage return, with the newline after it, reads as one newline |
| SecretSync.AdvancedCounts | toolkit/features/gcp_secret_sync.py:262-291 | a run adds at most one enabled version and hides none |
| SecretSync.EnabledBounded | toolkit/features/gcp_secret_sync.py:238-280 | over any history that began with at most one, enabled versions never exceed one more than the cleanups owed since the last full one |
| SecretSync.BoundIsReached | toolkit/features/gcp_secret_sync.py:238-280 | for any number of runs that add a version and clean up nothing, one enabled version more than that many |
| DriftCheck.Restore | toolkit/cli/sync.py:81-87 | every listed path is as it was; after a failed write those before it are, and those after it and all others are untouched |
| DriftCheck.RunWithCheck | toolkit/cli/sync.py:90-191 | the sync runs once; the verdict is True if and only if each listed path is on both sides or on neither, with the same content after normalisation, and the directory holds no unlisted file; on an exception the listed files are restored, up to the first write that fails; a SystemExit leaves everything as the sync left it |
| DriftCheck.NoTraceIffAllListed | toolkit/cli/sync.py:104-128 | a completed check leaves no trace if and only if every file the directory held was listed; others are deleted |
| DriftCheck.UnlistedIsDeleted | toolkit/cli/sync.py:118-128 | a file that was there unlisted is deleted by a check of a sync that wrote nothing |
| DriftCheck.UnmovedIffSame | toolkit/cli/sync.py:130-143 | with every file listed, in sync means absent on both sides or equal after normalisation, at every known path |
| DriftCheck.HomepageCheck | toolkit/cli/sync.py:265-277 | listing what the directory holds makes a check that completes leave no trace, and a sync that raised is undone for what it held |
| BranchProtection.ProtectionChanges | toolkit/features/branch_protection.py:91-110 | strict and contexts are reported exactly when they differ, contexts as collections without order |
| BranchProtection.NothingDiffers | toolkit/features/branch_protection.py:91-110 | nothing is reported exactly when the live checks have the declared strictness and the same contexts in any order |
| BranchProtection.PutBody | toolkit/features/branch_protection.py:113-149 | the loop fills the body of a whole replace |
| BranchProtection.BodyCarries | toolkit/features/branch_protection.py:113-149 | the eight flags go as bare booleans, false where there was none, the reviews without the three links, the checks as declared |
| BranchProtection.BodyNames | toolkit/features/branch_protection.py:131-138 | people, teams and apps go by login, or else by slug, in their order |
| BranchProtection.WriteBack | toolkit/features/branch_protection.py:113-149 | read, overlaid and replaced whole, the stored object is the old one with the declared status checks |
| BranchProtection.OnlyDeclaredIffNoOthers | toolkit/features/branch_protection.py:144-147 | only strict and the contexts change if and only if the status checks carried nothing else |
| BranchProtection.EnsureProtection | toolkit/features/branch_protection.py:192-244 | exactly what is exchanged and what it comes to, with any server; a normal return means the last read agrees and admins are enforced as before; with a whole-replace server nothing but a lost request goes wrong, and nothing else changes |
| BranchProtection.EnsureTwice | toolkit/features/branch_protection.py:199-212 | a second run finds nothing to change, sends no PUT of its own and leaves the stored object alone |
| KillSwitch.FireAndWait | toolkit/features/gcp_killswitch_proof.py:164-178 | the calls are to aim, to publish and then to ask for the billing and pause in turn, up to the first that fails, the first that sees it disabled, or the end of the time; what was targeted when the message went out is the only project it can have hit, however often it is delivered; seeing the scratch project detached means it was aimed there and delivered |
| KillSwitch.Restore | toolkit/features/gcp_killswitch_proof.py:179-191 | it aims back and reads back, and succeeds exactly when home is read; then the target is home |
| KillSwitch.RunProof | toolkit/features/gcp_killswitch_proof.py:120-198 | exactly these calls are made, and they decide the exit: nothing without a scratch project; else the target and, at the declared home and for another project, the billing are asked for, and short of that answer it refuses; else it fires, and whatever came of that it aims back; refusals touch nothing; every exit but the restore's own error has the target at home; at every exit the hub keeps its billing if and only if no message went out, or it went out at the scratch project and was delivered for good before the restore or is aimed there still |
| Pagination.Paginate | toolkit/features/gitea_client.py:250-278 | yields a prefix in order, the whole walk unless a request fails or an answer is no listing, in n/50+1 requests, and terminates by the uncollected remainder |
| Pagination.ItemsAre | toolkit/features/gitea_client.py:272-274 | a bare answer must be a list; in a wrapped one a missing list is empty; anything else is refused |
| Pagination.WholeIffPageHolds | toolkit/features/gitea_client.py:256-278 | the walk is the whole listing if and only if the server's cap is at least the page size or holds it all |
| Pagination.SmallCapTruncates | toolkit/features/gitea_client.py:276-278 | a server with a smaller cap is taken to have ended after one page |
| Pagination.ListRepos | toolkit/features/gitea_client.py:291-310 | the mapping is built from the whole walk |
| Pagination.NamesListed | toolkit/features/gitea_client.py:307-310 | a name is in the mapping if and only if a listed repository has it |
| Pagination.LastOfName | toolkit/features/gitea_client.py:307-310 | each name has the visibility of its last entry |
| TokenRotation.PlansAre | toolkit/features/gitea_tokens.py:60-110 | the two tokens that can be rotated: the account the identity map gives, the token's name, the key it is recorded under |
| TokenRotation.NeverTwo | toolkit/features/gitea_tokens.py:9-27 | over every history of provisions and rotations, failing anywhere, an absent key means a dead token and no credential has two |
| TokenRotation.UnsetSafe | toolkit/features/gitea_tokens.py:16-27 | clearing the key is safe if and only if the token is dead |
| TokenRotation.ReverseOrderMintsTwo | toolkit/features/gitea_tokens.py:21-25 | cleared first, a live token is joined by a second at the next provision |
| TokenRotation.StrandedUntilCleared | toolkit/features/gitea_tokens.py:11-14 | revoked and not cleared, nothing is minted; cleared, one is |
| TokenRotation.StrandedIffMintedMeanwhile | toolkit/cli/services.py:813-824 | a rotation that ends with the revoke leaves the key recorded and the token dead if and only if a provision minted it between the reading and the revoke |
| TokenRotation.StrandedInSilence | toolkit/cli/services.py:813-824 | a history in which the rotation ends well and yet no provision mints again |
| TokenRotation.RotateToken | toolkit/cli/services.py:784-831 | with provisions between any two steps and a failure at any step, every exit keeps the invariant; exactly the token is revoked and then, if that was answered and the key was recorded, the key cleared, and which of these failed is the exit; success leaves the token dead, and the key absent unless it was absent when planned and recorded when revoked |

## Left out

- Decryption is assumed to yield the file's contents; the empty result of a failed decryption is not part of the extraction laws. A sealed file reads as what was sealed.
- YAML keys that are not strings, anchors, and dates; an environment named `common`.
- Lists are values: a list a configuration holds is replaced, not written element by element, so two references to one list are not modelled.
- The docstring of the address fill (toolkit/features/configuration.py:170-183) speaks of users with `is_admin`; the code fills those with an identity, and the model follows the code.
- InjectContactEmail, FillAt and GetMergedConfig: an address that is itself a mapping is copied into each place it fills, where the source stores one object in all of them; what is read is the same.
- The order in which Python iterates a dict or a directory, except where it shows in a result; loops over dicts take any order.
- DeliveryHealth reads `on:` as a set of triggers; the YAML folding of `on` to a boolean, sorting the watched names and the verdicts on runs are left out. A resolver is a finite map of references to files. The command's own resolver reads a reference as a path, so two references with one key name two files only where a file name has an `@` or a reference begins with `.//`.
- DockerReclaim takes the volume pattern as a predicate and a container's age as a difference of times; messages and parsing of `docker inspect` output are left out. Names are unique, as Docker keeps them, and nothing else changes the daemon between the probe and the removal.
- NodeReclaim leaves out the lookup of the node's address and which images a prune evicts; reading the disk usage may only fail.
- BoardSweep and BoardStreams take fields and options by name, with Status and Priority two different fields; reading the board page by page is left out.
- BoardStreams takes the title prefix as a function; creating the field is left out.
- BoardParts does not claim that parent links are free of cycles, because nothing in the source ensures it.
- BranchProtection carries review settings as they are read; settings whose read and write shapes differ below the top level, such as dismissal restrictions, are not modelled on the server.
- SecretSync leaves out a missing `gcloud`, the lookup of dotted paths and the decoding of tokens; a value read is either there or not.
- DriftCheck takes normalisation as a function and does not claim that it is idempotent; the exit code of the sync is ignored, as in the source. The printed differences are left out.
- KillSwitch takes as blank what is blank in Latin-1; the further spaces of Unicode are left out. It assumes that nothing but the switch detaches billing; the laws about billing are for a start with no message pending. A message may be delivered any number of times.
- Pagination fixes the listing while it is walked.
- TokenRotation takes a provision as one step, minting and recording together, and a failed `sops unset` as leaving the vault alone.
- Terminal output, logging, and the generators of rendered files, which are straight-line templating.
- The scope map of the forge client, the board's dependency and priority commands, and the polling of instance groups, which would add only one-branch claims.
