# Verification model of swarm-hpa

swarm-hpa scales Docker Swarm services and deploys stacks from Git, and both act on the same
replica counts. This project models the state machines in which that happens, and proves what
they keep over every run. `dafny verify dfyconfig.toml` checks all of it.

| file | models |
|---|---|
| Autoscaler, Stabilizer, ControlLoop, Guard, Reconciler, ClosedLoop | the scaling loop: proportional rule, stabilization window, step limit, cooldown gate, first each for itself, then under constant load, then over all services with shared state, and for one service among the heals and moves that share its stamp |
| UpdateProtocol | the version-checked update of a service by any number of clients |
| Numbers, Labels, Compose, LastWins, MergedView | compose documents, their labels, and docker's last-wins merge |
| CarryForward, CarryForwardInPlace, Drift, Intent | carrying live counts into a deploy, as a function and in place through shared maps, the drift check, and both read off the declarations |
| Paths, FileObjects, RebaseShape, Deployer | lexical paths, rebasing, rotation and discovery of config and secret files, and the deploy of one merge group |
| Pipeline, SyncStack, PipelineResults, PassOrder, SecretFlow | one stack's pass: its schedule of calls, the loops that run it, what follows, which calls in which order, and how secrets get from discovery to docker |
| WorkerPool, StatusStore | the concurrent pass over all stacks, and the displayed statuses |
| Tracker, Registry | the task-error window; the agent registry, its gauge and its average |
| Words, Options, Sorting | 64-bit words with wrap-around; the usual option type; lists sorted by name |

Times are integers on one clock, metric values exact non-negative reals, names and ids natural
numbers of which only equality (and, where something is sorted, order) matters. Answers of
Docker, Git, sops, the clock and the file system are inputs. Concurrent code is a system of
atomic steps; a run is any sequence of enabled steps. Docker's merge is the specification in
`internal/core/model/gitops.go:28-34`, on the keys the code reads.

Where code and comments disagree the model follows the code:

- `internal/adapter/stackdeploy/deploy.go:119-122` says rebasing leaves the base document's paths as
  they are. It cleans them, and shortens a path that climbs out of the directory and comes straight
  back (`RebaseShape.BaseDocumentIsUntouchedIff`, `RebaseShape.BaseDocumentIsCleaned`,
  `RebaseShape.ComingBackIsShortened`).
- `internal/core/model/stackstatus.go:17-21` reads as if one stack of a repository were "syncing" at
  a time. The lock is released before the status is written, so it holds exactly for one worker or
  pairwise distinct repositories (`WorkerPool.OverlapIff`).
- `internal/adapter/stackdeploy/carryforward.go:35-40` and `internal/app/gitopsync/loop.go:713-716`
  speak of the merged view. The code folds flattened documents, which differs when a later top-level
  label overrides an earlier `deploy` one (`MergedView.FoldedLabelIsMerged`,
  `MergedView.LaterTopLevelLabelDiffers`).
- `internal/app/gitopsync/loop.go:323-325` and `internal/app/gitopsync/loop.go:607-609` mention
  skips of unchanged revisions. There are none: every pass runs its whole schedule
  (`SyncStack.SyncLoop.Run`).
- `internal/app/taskerrors/tracker.go:17-20` says oldest entries are evicted first. The newcomer is
  not compared, so the newest are kept exactly when it is not older than the oldest one held
  (`TaskErrors.KeepsNewestIff`, `TaskErrors.NewestAreHeldIff`).
- `internal/core/stackstatus/drift.go:13-19` names a global service as the mode that does not match.
  A job does not match either: with a count it is in the snapshot and always drifted
  (`Drift.JobsAlwaysDrift`, `Drift.AcceptedDriftsIff`).
- The connected gauge is not the number of agents at every moment: its events are emitted after the
  lock is released. What it can show, and when that can be negative, is exact (`Agents.GaugeRange`,
  `Agents.GaugeNegativeIff`).
- "Never clobbers the autoscaler's count" needs that nobody writes between the one read of the live
  state and the update (`Drift.DeployKeepsCountIff`).

## Model

| member | source | states |
|---|---|---|
| `Autoscaler.DesiredInBounds` | internal/core/autoscaler/autoscaler.go:21-39 | for a valid policy the desired count is inside [min, max], whatever the metric and the current count |
| `Autoscaler.DesiredAtZero` | internal/core/autoscaler/autoscaler.go:26-28 | for every valid policy and every value, a service at 0 replicas is brought to its minimum |
| `Autoscaler.DesiredHolds` | internal/core/autoscaler/autoscaler.go:23-36 | within a tenth of the target, and without a target, the count stays or goes to the bound it is beyond |
| `Autoscaler.DesiredIsLeastSufficient` | internal/core/autoscaler/autoscaler.go:28-39 | outside the deadband the result is the least count within the bounds that carries the whole load at no more than the target each, or max if none does |
| `Autoscaler.DesiredMonotoneInMetric` | internal/core/autoscaler/autoscaler.go:21-39 | a larger metric never asks for fewer replicas, also across both edges of the deadband |
| `Autoscaler.DesiredUnderLoad` | internal/core/autoscaler/autoscaler.go:21-39 | under a constant total load the decision depends on load/target alone: hold within 10% of it, else its ceiling, clamped |
| `Autoscaler.OneStepFixedPoint` | internal/core/autoscaler/autoscaler.go:21-39 | n = Desired(c) implies Desired(n) = n, over every combination of deadband, ceiling and clamps |
| `Autoscaler.DesiredStaysAhead` | internal/core/autoscaler/autoscaler.go:21-39 | from anywhere on the way from c to Desired(c), the new decision lies on the rest of that way |
| `Autoscaler.ClampStepExact` | internal/core/autoscaler/autoscaler.go:45-62 | the step lies between current and desired and covers exactly min(limit, distance): no overshoot, and the 64-bit operators never wrap |
| `Stabilization.Compact` | internal/app/reconciler/stabilizer.go:53-59 | filtering into the same array through `[:0]` keeps exactly the samples not older than the cutoff, in order |
| `Stabilization.CompactAndAppend` | internal/app/reconciler/stabilizer.go:53-61 | the stored slice is the kept samples and the new one, in the old array or a fresh one |
| `Stabilization.Largest` | internal/app/reconciler/stabilizer.go:70-75 | the loop returns the largest recommendation, at least the floor |
| `Stabilization.Stabilizer.Record` | internal/app/reconciler/stabilizer.go:52-61 | only the named service's history changes; no two services share a backing array |
| `Stabilization.Stabilizer.Recommend` | internal/app/reconciler/stabilizer.go:43-80 | the in-place method computes the answer and the new histories of the specification, for all services at once |
| `Stabilization.WindowMaxIsMax` | internal/app/reconciler/stabilizer.go:37-42 | the specification's window maximum is an upper bound of every recommendation in the window, and is one of them or the floor |
| `Stabilization.HistoryIsComplete` | internal/app/reconciler/stabilizer.go:53-61 | if no call of the service has pruned a sample of the query's window, the pruned and the complete history agree from its cutoff on |
| `Stabilization.NothingLostWithoutLaterCalls` | internal/app/reconciler/stabilizer.go:53-61 | if no call of the service was later than the query, as with monotonic readings, no sample of its window was pruned |
| `Stabilization.RecommendRefinesWindowMax` | internal/app/reconciler/stabilizer.go:43-80 | then the pruned history answers as one that forgets nothing: min(current, window maximum) on a shrink, the recommendation itself otherwise |
| `Stabilization.RecommendMeans` | internal/app/reconciler/stabilizer.go:43-80 | the answer outright: the recommendation itself unless there is a window and the service is to shrink; then the largest recommendation the service got in the window, but not above the current count |
| `Stabilization.RefinesIffNothingLost` | internal/app/reconciler/stabilizer.go:43-80 | for given services and times of the calls, every query of the service at `now` is answered so, whatever was recommended, exactly if no call has pruned a sample of its window |
| `Stabilization.ServicesAreIndependent` | internal/app/reconciler/stabilizer.go:52-61 | a call for one service changes neither answer nor history of another |
| `ControlLoop.HistoryInside` | internal/app/reconciler/reconciler.go:191-192 | every recommendation ever stored is inside the policy's bounds |
| `ControlLoop.DecisionBounds` | internal/app/reconciler/reconciler.go:191-207 | in any run the stabilized value is inside the bounds; the final count is inside when the current one is, and otherwise is nearer by the step limit without passing the bound |
| `ControlLoop.WantedRisesOnTheWayDown` | internal/core/autoscaler/autoscaler.go:21-39 | on the way down a count passed earlier asked for no more than an unsettled later one does |
| `ControlLoop.StepApproaches` | internal/app/reconciler/reconciler.go:191-207 | one tick never passes the first decision's target, whatever the history holds and whether or not the guard applies it |
| `ControlLoop.LateShrinkIsNotHeld` | internal/app/reconciler/stabilizer.go:43-80 | once samples from before the run have left the window, nothing holds an unsettled shrink back |
| `ControlLoop.RunInvariant` | internal/app/reconciler/reconciler.go:187-209 | every late applied tick of an unsettled service brings the count at least one nearer to the first target |
| `ControlLoop.CountsNeverReverse` | internal/app/reconciler/reconciler.go:187-209 | under constant load the counts of a run move in one direction and never pass the first target |
| `ControlLoop.LoopConverges` | internal/app/reconciler/reconciler.go:187-209 | after at most |c0 - Desired(c0)| late applied ticks the service is settled, for any step limit and window |
| `Reconciling.Reconciler.Scale` | internal/app/reconciler/reconciler.go:187-209 | one service's branch moves the stabilizer's and the guard's real state as the specification says |
| `Reconciling.Reconciler.Heal` | internal/app/reconciler/reconciler.go:231-242 | one heal goes through the guard the scaling uses |
| `Reconciling.Reconciler.Rebalance` | internal/app/reconciler/reconciler.go:356-368 | one move of the plan goes through that guard too |
| `Reconciling.Reconciler.ObserveService` | internal/app/reconciler/reconciler.go:188-242 | one service is scaled, then healed when it is found stuck |
| `Reconciling.Reconciler.Observe` | internal/app/reconciler/reconciler.go:152-249 | a tick treats every service in order and then the moves, on one stabilizer and one guard, whose state ends as that of the sequence of these steps |
| `Reconciling.ServicesFirst` | internal/app/reconciler/reconciler.go:152-246 | a tick, act by act: the services in order, each scaled before it is healed |
| `Reconciling.MovesLast` | internal/app/reconciler/reconciler.go:248-249 | then the moves in the order of the plan, and nothing else |
| `Reconciling.ScalingMeans` | internal/app/reconciler/reconciler.go:187-209 | after any run the guard is asked to scale from the current count towards the proportional rule's, held at the largest recommendation of the window over the whole run, by exactly the smaller of the distance and the step limit |
| `Reconciling.OtherwiseMeans` | internal/app/reconciler/reconciler.go:188-222 | without a reading nothing changes; a heal or a move leaves the recommendations alone |
| `Reconciling.ScalingHoldsHealing` | internal/app/reconciler/reconciler.go:207-242 | a scaling that leaves a stamp suppresses the heal of the same tick while the heal window runs |
| `Reconciling.EveryCommandIsJustified` | internal/app/reconciler/reconciler.go:187-249 | over any run of any services, autoscaled or only healed or moved, all interleaved, every `SetReplicas` scales a replicated service, from one of its own observations, to inside its bounds or by the step limit towards them, and every `ForceUpdate` comes from a heal or an opted-in rebalance of that service |
| `ClosedLoop.GuardedRunIsControlled` | internal/app/reconciler/reconciler.go:187-249 | any run of one service with the guard in the loop, heals and moves in between, is a run of the loop without it in which exactly those ticks are applied that the guard let through and Swarm accepted |
| `ClosedLoop.MissedAreHindered` | internal/app/reconciler/guard.go:70-174 | with ticks spaced by the scale cooldowns, each heal or move of the service, each refused update, and an initial stamp that is in the way, keeps at most one tick from being applied |
| `ClosedLoop.EveryTickIsApplied` | internal/app/reconciler/guard.go:70-108 | with none of these every decision is applied |
| `ClosedLoop.GuardedLoopConverges` | internal/app/reconciler/reconciler.go:187-249 | so the service is settled after as many such ticks as the first decision is away from its count, and one more for each of these hindrances |
| `Guarding.RemainingIffSuppressed` | internal/app/reconciler/guard.go:46-66 | the gauge is positive exactly while the action is suppressed, and is the exact time until it is allowed |
| `Guarding.Guard.ScaleService` | internal/app/reconciler/guard.go:70-108 | outcome, stamps and commands as decided: no-op and non-replicated before cooldown before dry-run, stamp only after success or dry-run |
| `Guarding.ScaleMeans` | internal/app/reconciler/guard.go:70-108 | a scale-up gets past the cooldown exactly if the scale-up window is not positive, there is no stamp, or it is at least that old, a scale-down by the scale-down window; then in dry-run only a stamp is left, and otherwise the one command is sent and a stamp left if it is accepted |
| `Guarding.Guard.HealService` | internal/app/reconciler/guard.go:111-134 | the same for a heal |
| `Guarding.ForceMeans` | internal/app/reconciler/guard.go:111-174 | the same for a heal by the heal window and for an opted-in rebalance by the rebalance window; one that has not opted in does nothing |
| `Guarding.GaugesMatch` | internal/app/reconciler/guard.go:46-66 | each of the four gauges is positive exactly while a request of its kind would be suppressed |
| `Guarding.Guard.RebalanceService` | internal/app/reconciler/guard.go:147-174 | the same for a rebalance, opt-in first |
| `Guarding.StampCoversActions` | internal/app/reconciler/cooldown.go:49-62 | the stamp is never older than any recorded action of the service |
| `Guarding.ActionsAreSpaced` | internal/app/reconciler/guard.go:70-174 | whatever passes the gate comes at least its own window after every earlier recorded action of the service, of any kind |
| `Guarding.RateLimited` | internal/app/reconciler/guard.go:70-174 | n recorded actions span at least n - 1 of the shortest windows |
| `Guarding.AtMostOnePlusSpan` | internal/app/reconciler/guard.go:70-174 | any span T holds at most 1 + T/w recorded actions of a service |
| `Guarding.DryRunNeverCommands` | internal/app/reconciler/guard.go:88-93 | in dry-run no run sends any command |
| `Guarding.StampIsLastAction` | internal/app/reconciler/cooldown.go:35-62 | the stamp is the time of the last successful or dry-run action: skipped, suppressed and failed calls leave it |
| `UpdateProtocol.UpdateService` | internal/adapter/swarm/mutate.go:40-87 | the loop ends as the client program does, and each of its at most three requests carries an inspected version and that version's mutated spec |
| `UpdateProtocol.EndsAtFirst` | internal/adapter/swarm/mutate.go:40-87 | the update ends with the first of three attempts that is not a conflict followed by an uncancelled wait, with the result that attempt gives, and exhausted if all three are |
| `UpdateProtocol.ReachableInv` | internal/adapter/swarm/mutate.go:40-87 | in every interleaving the accepted writes form one unbroken chain, each a client's mutation of the spec the server then held |
| `UpdateProtocol.NoLostUpdate` | internal/adapter/swarm/mutate.go:18-87 | a client told ok owns exactly one write, and it is its mutation of the server's current spec |
| `UpdateProtocol.FailureWroteNothing` | internal/adapter/swarm/mutate.go:47-86 | a client that reports a refusal, a cancellation, exhausted attempts or a failed inspect has written nothing |
| `UpdateProtocol.ScaleWritesOnlyReplicas` | internal/adapter/swarm/mutate.go:18-26 | a committed Scale changes the replica count of a replicated service and nothing else |
| `UpdateProtocol.ForceWritesOnlyCounter` | internal/adapter/swarm/mutate.go:30-35 | a committed ForceUpdate raises the counter by one, wrapping around, and changes nothing else |
| `UpdateProtocol.ThreeAttempts` | internal/adapter/swarm/mutate.go:14-87 | no run lets a client take more than three attempts of three steps |
| `UpdateProtocol.CounterCountsForceUpdates` | internal/adapter/swarm/mutate.go:30-35 | if others leave the counter alone it has advanced (modulo 2^64) by a set of writes between the ForceUpdates reported ok and those plus the ones whose reply was lost |
| `UpdateProtocol.CounterIsExact` | internal/adapter/swarm/mutate.go:30-35 | with no failed reply it has advanced by exactly the successful ForceUpdates |
| `Numbers.PrintParse` | internal/adapter/stackdeploy/carryforward.go:177-187 | printing a 64-bit label value and parsing it gives it back |
| `Numbers.ParsesIff` | internal/adapter/stackdeploy/carryforward.go:177-187 | text parses to a number exactly if it is some zeros before the printed number |
| `Numbers.DecimalGrows` | internal/adapter/stackdeploy/carryforward.go:234-237 | printing a number is printing its front and then its last decimal digit |
| `Labels.ParsedPolicyIsValid` | internal/config/labels.go:56-157 | an accepted autoscaling policy is valid, and its bounds are the numbers carry-forward reads from the same labels |
| `Labels.AutoscaledIff` | internal/config/labels.go:56-157 | exactly which labels make an autoscaled service, and with which policy, heal and rebalance opt-ins |
| `Labels.OptInsIff` | internal/config/labels.go:56-94 | exactly which labels leave a service unscaled, and with which opt-ins |
| `Labels.CarryClampIsClamp` | internal/adapter/stackdeploy/carryforward.go:80-88 | for accepted labels carry-forward's clamp equals the autoscaler's, so a deploy moves a count exactly when it is out of range |
| `Labels.CarryClampTwice` | internal/adapter/stackdeploy/carryforward.go:80-88 | clamping is idempotent for any labels, crossed bounds included |
| `Labels.ClampsAgreeIff` | internal/adapter/stackdeploy/carryforward.go:80-88 | for arbitrary labels, the exact condition under which the two clamps agree |
| `LastWins.FoldIsLast` | internal/adapter/stackdeploy/carryforward.go:145-155 | the fold yields the value of the last document that declares the setting anywhere |
| `LastWins.FoldEqualsMerge` | internal/adapter/stackdeploy/carryforward.go:126-159 | fold and true merge agree exactly when no later top-level declaration overrides a `deploy` one with another value |
| `MergedView.ServiceLabels` | internal/adapter/stackdeploy/carryforward.go:210-239 | map form, list form and both places end as the flat labels, `deploy` winning |
| `MergedView.FlatServiceLabels` | internal/app/gitopsync/loop.go:776-800 | the drift code's own flattening computes the same labels |
| `MergedView.FoldedLabelIsMerged` | internal/adapter/stackdeploy/carryforward.go:145-155 | per label key: the folded view equals the merged document's label exactly under the condition above |
| `MergedView.FoldedModeIsMerged` | internal/adapter/stackdeploy/carryforward.go:161-173 | the same for the mode |
| `MergedView.LaterTopLevelLabelDiffers` | internal/adapter/stackdeploy/carryforward.go:145-155 | a concrete group in which a later top-level label makes the two differ |
| `Compose.MergeLabelsMap` | internal/core/model/gitops.go:28-34 | merging label sections is last-wins per key across map and list forms |
| `CarryForward.IndexLive` | internal/adapter/stackdeploy/carryforward.go:59-62 | the last live entry of a name wins |
| `CarryForward.IsLiveIff` | internal/adapter/stackdeploy/carryforward.go:59-62 | a name is looked up to an entry exactly if that is the last one of the name in the listing |
| `Intent.LabelSaysIff` | internal/adapter/stackdeploy/carryforward.go:217-232 | what a label section says of a key: in a map the printed scalar, in a list the last item with it, `key=text` or the bare key for true |
| `Intent.WaysToSwitchOn` | internal/adapter/stackdeploy/carryforward.go:217-237 | the text and the boolean true in a map and both list forms all switch a service on |
| `Intent.SaysIff` | internal/adapter/stackdeploy/carryforward.go:126-159 | the folded label is the last word of the group: of the last document whose declaration has the key, under `deploy` before the top level |
| `Intent.HasModeIff` | internal/adapter/stackdeploy/carryforward.go:161-173 | the folded mode is the last explicit one, in the same way |
| `Intent.CarriedIff` | internal/adapter/stackdeploy/carryforward.go:54-80 | a service is carried if and only if the group's last word on `swarm.autoscaler.enabled` is true, its last explicit mode is not global, and Swarm runs it as a replicated service |
| `Intent.RewriteMeans` | internal/adapter/stackdeploy/carryforward.go:54-106 | for any group and listing: every declaration of such a service gets the live count, capped at the group's max and raised to its min, under `deploy.replicas` and keeps the rest; every other declaration is as before |
| `Intent.RewriteMerges` | internal/adapter/stackdeploy/carryforward.go:35-45 | docker's last-wins merge of the rewritten group ends at that count |
| `CarryForward.CarriedCountSurvivesMerge` | internal/adapter/stackdeploy/carryforward.go:54-106 | any non-empty selection, order or repetition of the rewritten declarations merges to the carried count |
| `CarryForward.NothingElseChanges` | internal/adapter/stackdeploy/carryforward.go:89-93 | apart from `deploy.replicas` of carried services every key of every document is unchanged |
| `CarryForward.RewriteKeepsView` | internal/adapter/stackdeploy/carryforward.go:126-159 | the rewrite changes neither the labels nor the mode anyone folds |
| `CarryForward.RewriteTwice` | internal/adapter/stackdeploy/carryforward.go:54-106 | a second pass over the same live state changes nothing |
| `CarryForwardInPlace.MergeServices` | internal/adapter/stackdeploy/carryforward.go:126-159 | the loops over the documents build, per service, its folded labels and mode and a reference to every declaration, in any map order |
| `CarryForwardInPlace.Decide` | internal/adapter/stackdeploy/carryforward.go:65-88 | the branch cascade carries exactly the owned, non-global, live replicated services, clamped |
| `CarryForwardInPlace.WriteAll` | internal/adapter/stackdeploy/carryforward.go:89-93 | writing through the references changes the referenced maps and no other |
| `CarryForwardInPlace.SetReplicas` | internal/adapter/stackdeploy/carryforward.go:190-197 | only `deploy.replicas` of the one map changes; a missing or malformed `deploy` is replaced |
| `CarryForwardInPlace.ApplyCarryForwardGroup` | internal/adapter/stackdeploy/carryforward.go:54-106 | in-place, in any map iteration order, the documents become the rewritten group and the count is the number of adjusted services; without services it fails and changes nothing |
| `Drift.MergeGroupServices` | internal/app/gitopsync/loop.go:727-757 | the independent fold of the drift code agrees with carry-forward's for every service |
| `Drift.DesiredReplicasGroup` | internal/app/gitopsync/loop.go:691-711 | the snapshot, and how many services the autoscaler keeps out of it |
| `Drift.OwnershipViewsAgree` | internal/app/gitopsync/loop.go:691-757 | no service is both rewritten and in the snapshot, and the snapshot is the same before and after the rewrite |
| `Intent.SnapshotIff` | internal/app/gitopsync/loop.go:691-757 | a service is in the snapshot with a count exactly if that is its last explicit count, its last mode is not global and the last word does not give it to the autoscaler |
| `Intent.ExcludedIff` | internal/app/gitopsync/loop.go:691-711 | the excluded services are exactly those the last word gives to the autoscaler and whose last mode is not global |
| `Drift.ReportTells` | internal/core/stackstatus/drift.go:20-40 | the report of a desired service: its desired count, the live count or 0, and drifted exactly if it is missing, not replicated, or has another count |
| `Drift.Drift` | internal/core/stackstatus/drift.go:20-40 | one report per desired service, sorted by name, drifted unless live, replicated and equal |
| `Drift.DriftedIff` | internal/core/stackstatus/drift.go:20-40 | after a deploy a snapshot service is not drifted exactly when its merged mode is absent or `replicated` and the merged count is the counted one |
| `Drift.JobsAlwaysDrift` | internal/core/stackstatus/drift.go:20-40 | a `replicated-job` with a count under `deploy` is in the snapshot and always reported drifted, whatever the count |
| `Drift.AcceptedDriftsIff` | internal/core/stackstatus/drift.go:20-40 | for documents docker can accept, those without top-level counts and modes: a snapshot service is drifted after its deploy exactly if the mode the loop reads is neither absent nor `replicated` |
| `Drift.SnapshotServiceDriftsIff` | internal/app/gitopsync/loop.go:691-757 | the same for a service of the snapshot of any group, after the deploy of the rewritten group in any live state |
| `Drift.WellPlacedDeploysAsCounted` | internal/app/gitopsync/loop.go:691-757 | counts only under `deploy`, no mode but `replicated` or `global`, and none overridden: then that condition holds |
| `Drift.CarriedServiceKeepsReadCount` | internal/adapter/stackdeploy/carryforward.go:65-104 | a carried service ends with the count read before the deploy, clamped, whatever is live when docker applies it, exactly if its merged mode makes it a replicated service |
| `Drift.DeployThenDriftIsClean` | internal/core/stackstatus/drift.go:20-40 | with one live state read and applied, a deploy leaves nothing drifted exactly if every snapshot service deploys as counted, and every carried service at its clamped previous count exactly if each is deployed as replicated |
| `Drift.DeployKeepsCountIff` | internal/adapter/stackdeploy/deploy.go:60-100 | the live count survives exactly when no write came between read and update that the clamp does not undo; without one, exactly when it is in range |
| `Paths.WalkCleaned` | internal/adapter/stackdeploy/deploy.go:149-150 | cleaning a relative path before walking it makes no difference |
| `Paths.CleanRules` | internal/adapter/stackdeploy/deploy.go:149-150 | the rules of cleaning, applied anywhere in a path, do not change the result, and the result is the path no rule applies to |
| `Paths.JoinAssociative` | internal/app/gitopsync/loop.go:446-450 | joining worktree, directory and file step by step or at once gives one path |
| `Paths.RelSucceeds` | internal/adapter/stackdeploy/deploy.go:149-158 | Rel fails exactly when one path is absolute and the other not, or when the base goes up by `..` where the two part |
| `Paths.RelLeadsToTarget` | internal/adapter/stackdeploy/deploy.go:149-150 | from the base, the relative path leads to the target |
| `FileObjects.RebaseObject` | internal/adapter/stackdeploy/deploy.go:140-160 | only a map with a non-empty relative `file:` that Rel accepts is rewritten |
| `FileObjects.RebaseSection` | internal/adapter/stackdeploy/deploy.go:135-162 | in any order every object gets its rebased path and the count is the number rewritten |
| `FileObjects.FileDoc.RebaseFileObjects` | internal/adapter/stackdeploy/deploy.go:130-164 | both sections, nothing at all when a directory is empty |
| `FileObjects.CheckSection` | internal/core/compose/discovery.go:18-35 | a section is refused exactly when an entry is no map or a `file:` no string |
| `FileObjects.RotateSection` | internal/core/compose/rotation.go:16-39 | every file object is renamed by the hash of the file its own document's directory names; it fails exactly when a section is malformed or a file unreadable |
| `FileObjects.RotationKeepsFiles` | internal/core/compose/rotation.go:16-39 | rotation leaves the `file:` of every object alone, so discovery, rotation and docker speak of the same ones |
| `FileObjects.RotationMeans` | internal/core/compose/rotation.go:16-39 | rotation applies exactly if every entry is a map, every `file:` a string and every file readable; each object with a file is then named by stack, object and the hash of its own file and keeps the rest, and the others stay |
| `FileObjects.DiscoveryMeans` | internal/core/compose/discovery.go:42-56 | the files found are exactly those the secrets name from the document's directory |
| `FileObjects.RebaseMeans` | internal/adapter/stackdeploy/deploy.go:130-164 | exactly the objects with a non-empty relative file that has a relative path from the base get it, and nothing else changes |
| `FileObjects.FileDoc.ApplyRotation` | internal/core/compose/rotation.go:16-39 | both sections, with the number of renamed objects |
| `FileObjects.FileDoc.DiscoverSecretFiles` | internal/core/compose/discovery.go:42-56 | exactly the paths rotation hashes, for the secrets; an error exactly for a malformed section |
| `FileObjects.RebasePreservesResolution` | internal/adapter/stackdeploy/deploy.go:130-164 | docker opens for the rebased path, from the base directory, the very file rotation hashed and discovery had decrypted; there is a rebased path exactly unless the base goes up where the two part |
| `RebaseShape.RebasedIndependentOfClone` | internal/adapter/stackdeploy/deploy.go:114-118 | inside the worktree there always is a rebased path, and it is the way between the two repo-relative places, whatever the clone's prefix, absolute, relative or with `..` |
| `RebaseShape.BaseDocumentIsCleaned` | internal/adapter/stackdeploy/deploy.go:119-122 | for every base directory: the base document's path becomes its cleaned form exactly when it does not climb out of the directory and come straight back, or past the root or the start of a relative base |
| `RebaseShape.BaseDocumentIsUntouchedIff` | internal/adapter/stackdeploy/deploy.go:119-122 | the identity of the code comment, exactly: the path is clean and meets that condition, or it is the one that climbs to the start of a relative base and ends in a dot |
| `RebaseShape.ComingBackIsShortened` | internal/adapter/stackdeploy/deploy.go:119-122 | a concrete path for which the identity of the code comment is false |
| `RebaseShape.AbsoluteFileResolution` | internal/adapter/stackdeploy/deploy.go:130-164 | an absolute path is not rebased; docker and rotation then mean the same file exactly when its own `..`s use up the document's directory |
| `Deploying.Deployer.WriteTemp` | internal/adapter/stackdeploy/deploy.go:230-249 | the file is new and holds what was written, with the directory it is in; no other file changes |
| `Deploying.Deployer.WriteDoc` | internal/adapter/stackdeploy/deploy.go:187-206 | a document is rebased, then written under a name no file has |
| `Deploying.Deployer.WriteGroup` | internal/adapter/stackdeploy/deploy.go:170-214 | one file per document in `-c` order with the carried services and paths rebased to the first directory; on a failure the files so far are handed back |
| `Deploying.Deployer.Cleanup` | internal/adapter/stackdeploy/deploy.go:172-178 | the group's files are removed, no others |
| `Deploying.Deployer.Deploy` | internal/adapter/stackdeploy/deploy.go:60-100 | docker is called at most once, exactly when every step before it succeeded, with the group rewritten over one read of the live state; no temp file is left that could be removed |
| `Deploying.AddedCallCarries` | internal/adapter/stackdeploy/deploy.go:60-100 | a deploy adds one docker call exactly if there are documents, the live state is read, some document has services and all files are written; the call has one file per document, in its directory, with the group rewritten over the live state, so that merging the files gives every carried service its live count within its bounds |
| `Deploying.WrittenObjects` | internal/adapter/stackdeploy/deploy.go:187-206 | of the configs and secrets written only the `file:` of an object changes, only if it is a non-empty relative path, and only with directories to rebase between |
| `Deploying.DockerOpensTheHashedFile` | internal/adapter/stackdeploy/deploy.go:130-164 | in the written document each relative config or secret opens, from the directory of the first file written, the file its own document names in the worktree |
| `SecretFlow.DiscoveredIsDecrypted` | internal/app/gitopsync/loop.go:356-465 | once a pass reaches its deploys, every file discovered in any document of any group has been decrypted by a call that comes before every deploy |
| `SecretFlow.OpenedWasDecrypted` | internal/app/gitopsync/loop.go:356-386 | so what docker opens for a relative file-backed secret is a file decrypted earlier in that pass |
| `Pipeline.RanEndsAtFailure` | internal/app/gitopsync/loop.go:259-471 | the calls made are the schedule, or its part up to the first failing call, which is the last one |
| `SyncStack.SyncLoop.Prepare` | internal/app/gitopsync/loop.go:259-321 | sync, values and every document of every group in list order, stopping at the first failure |
| `SyncStack.SyncLoop.RenderGroups` | internal/app/gitopsync/loop.go:290-321 | every document of every group in order, or the failing call of the read or render that stopped it |
| `SyncStack.SyncLoop.Snapshot` | internal/app/gitopsync/loop.go:326-339 | the union of the groups' snapshots, nil when empty |
| `SyncStack.SyncLoop.Unseal` | internal/app/gitopsync/loop.go:356-386 | discovery over every document, then at most one decryption of all files found |
| `SyncStack.SyncLoop.RotateGroup` | internal/app/gitopsync/loop.go:423-438 | with rotation on, every document of the group is replaced by its rotated form, in order, up to the first failure |
| `SyncStack.SyncLoop.DeployGroup` | internal/app/gitopsync/loop.go:416-464 | every document rotated, then one deploy of them all |
| `SyncStack.SyncLoop.DeployGroups` | internal/app/gitopsync/loop.go:400-465 | the status of each group is its outcome; a panic leaves the groups that are not ok unmarked |
| `SyncStack.MarkFailedFrom` | internal/app/gitopsync/loop.go:407-413 | group i failed, the later ones skipped, the earlier ones kept |
| `SyncStack.SyncLoop.Run` | internal/app/gitopsync/loop.go:225-471 | a pass makes exactly the calls of its schedule up to the first that fails or panics, whatever the loop remembers of earlier revisions, and leaves the memory and the recorded status that follow from them |
| `SyncStack.SyncLoop.Apply` | internal/app/gitopsync/loop.go:356-471 | the remembered revision and verdict change on success and on a deploy that returns an error only, the count on success only |
| `PipelineResults.StatusesAreOkFailedSkipped` | internal/app/gitopsync/loop.go:400-471 | once deploy is reached the statuses read ok* or ok* failed skipped*, and the failed one holds the error of the failing call; after a panic they read ok* and then unmarked |
| `PipelineResults.SucceedsIffAllOk` | internal/app/gitopsync/loop.go:466-469 | a pass counts as deployed exactly when it reached the deploys and every group is ok |
| `PipelineResults.DeploysAreTheOkGroups` | internal/app/gitopsync/loop.go:416-465 | Deploy was called in list order on exactly the ok groups, and on the first other one if the pass ended in its deploy and not in its rotation |
| `PipelineResults.EffectsInOrder` | internal/app/gitopsync/loop.go:282-465 | all renders precede any decryption, which precedes any rotation or deploy; a dry run goes no further than rendering |
| `PassOrder.ScheduleIff` | internal/app/gitopsync/loop.go:259-471 | exactly which calls a pass without failures makes, from the stack and the settings, including what is decrypted with and without discovery, what each deploy receives and its pull policy |
| `PassOrder.ScheduleOrdered` | internal/app/gitopsync/loop.go:259-471 | and in which order: stage by stage, group by group, document by document, a group deployed after its rotations; none twice |
| `PassOrder.CallsMade` | internal/app/gitopsync/loop.go:259-471 | every call a pass makes belongs to it, and every earlier one that belongs to it was made and went well |
| `PassOrder.DeployReceives` | internal/app/gitopsync/loop.go:416-456 | every deploy of a pass receives all documents of its group in `-c` order, with the rendered services and, with rotation on, the rotated objects, each rotated before it |
| `PassOrder.StatusesMean` | internal/app/gitopsync/loop.go:400-471 | the status of each group from the calls made: ok, the error of the failing call in its group, skipped after it, unmarked after a panic; none before the deploys are reached |
| `PassOrder.ResultMeans` | internal/app/gitopsync/loop.go:613-634 | the recorded status: the revision once git was synced, and the stage of the failing call or of a panic |
| `PassOrder.RememberedMeans` | internal/app/gitopsync/loop.go:326-339 | the memory: the desired counts once everything was rendered, revision and verdict after all deploys or a deploy that returned an error |
| `PassOrder.DesiredMeans` | internal/app/gitopsync/loop.go:326-339 | the desired counts are, per service, those of the last group that watches it |
| `PipelineResults.DeployCountIsExact` | internal/app/gitopsync/loop.go:588-593 | over any passes of any stacks the deploy count is the number of passes with every group ok, modulo 2^64 |
| `WorkerPool.ReachableInv` | internal/app/gitopsync/loop.go:201-256 | the counters, the locks and what the store shows are consistent in every interleaving |
| `WorkerPool.BoundedConcurrency` | internal/app/gitopsync/loop.go:205-217 | at most `concurrency` stacks are in flight, panics included |
| `WorkerPool.InFlightIff` | internal/app/gitopsync/loop.go:205-217 | n stacks can be in flight at once if and only if n is at most `concurrency` and at most the number of stacks |
| `WorkerPool.OneStackPerRepo` | internal/app/gitopsync/loop.go:843-853 | at most one stack of a repository is between lock and unlock, with mutexes made lazily |
| `WorkerPool.ShownSyncing` | internal/app/gitopsync/loop.go:232-256 | a stack shown syncing runs its pipeline, or has unlocked and not yet recorded its status |
| `WorkerPool.SomeStepEnabled` | internal/app/gitopsync/loop.go:201-219 | no deadlock: until the pass returns some step is enabled |
| `WorkerPool.PassIsBounded` | internal/app/gitopsync/loop.go:201-219 | every run of a pass over n stacks takes at most 11 n + 1 steps |
| `WorkerPool.PassLeavesAllIdle` | internal/app/gitopsync/loop.go:232-239 | when the pass returns every stack was recorded exactly once and is shown idle |
| `WorkerPool.PassCanFollowPass` | internal/app/gitopsync/loop.go:201-219 | no slot and no lock is left behind: the next pass can begin |
| `WorkerPool.HandOverOverlaps` | internal/app/gitopsync/loop.go:232-256 | whenever one stack runs while another of its repository is blocked, three steps show both as syncing |
| `WorkerPool.AnyTwoCanOverlap` | internal/app/gitopsync/loop.go:201-256 | with two workers any two stacks of one repository, anywhere in any pass, can both be shown as syncing |
| `WorkerPool.OverlapNeedsTwoWorkers` | internal/app/gitopsync/loop.go:205-217 | with one worker no two stacks are ever shown as syncing at once |
| `WorkerPool.OverlapIff` | internal/app/gitopsync/loop.go:201-256 | for every valid pool and every state a pass can begin in: two stacks of one repository can both be shown as syncing if and only if `concurrency` is at least 2 and two entries name one repository |
| `StatusStore.Store.SetStatus` | internal/adapter/statusstore/store.go:43-54 | the full update replaces the entry, under the given name and idle |
| `StatusStore.Store.SetState` | internal/adapter/statusstore/store.go:63-74 | the overlay changes repo and state and keeps the result; an unknown stack is seeded |
| `StatusStore.Store.Snapshot` | internal/adapter/statusstore/store.go:78-90 | every known stack once, sorted by name |
| `StatusStore.StoreRefinesHistory` | internal/adapter/statusstore/store.go:43-90 | over any updates a stack shows the result of its last full update, whatever overlays came in between, and its last overlay since then or idle |
| `TaskErrors.Tracker.EvictOldest` | internal/app/taskerrors/tracker.go:95-110 | exactly one entry with the smallest Since leaves |
| `TaskErrors.Tracker.Record` | internal/app/taskerrors/tracker.go:68-92 | known instances are skipped; at capacity an oldest entry leaves before each new one |
| `TaskErrors.Tracker.WindowSnapshot` | internal/app/taskerrors/tracker.go:117-140 | exactly the entries of age at least the window are pruned; per service and class the count is the number kept, and all counts sum to the entries kept |
| `TaskErrors.RecordMeans` | internal/app/taskerrors/tracker.go:68-92 | recording one event: a known instance changes nothing, a new one is added, and one of smallest Since leaves exactly if the tracker is full |
| `TaskErrors.CountsMean` | internal/app/taskerrors/tracker.go:117-140 | each count is the number of events kept with that service and class |
| `TaskErrors.OneKeepsCap` | internal/app/taskerrors/tracker.go:81-84 | the size stays within the cap, and whatever leaves had the smallest Since of a full tracker |
| `TaskErrors.CapIsKept` | internal/app/taskerrors/tracker.go:68-110 | over any run the tracker never holds more than the cap |
| `TaskErrors.KeepsNewestIff` | internal/app/taskerrors/tracker.go:81-84 | for every capacity: recording a new event in a full tracker lets go of none newer than one it then holds if and only if some held event is not newer than the new one |
| `TaskErrors.NewestAreHeldIff` | internal/app/taskerrors/tracker.go:68-140 | over any run of records and reads: at every moment all that was let go is out of the window or not newer than anything held, if and only if every new event that met a full tracker found a held one that is not newer or is out of the window |
| `TaskErrors.RunsAsMoves` | internal/app/taskerrors/tracker.go:68-140 | whatever the tracker holds after any batches and reads is the end of such a run, event by event |
| `TaskErrors.DroppedIsStale` | internal/app/taskerrors/tracker.go:112-140 | without evictions, whatever was dropped is out of the window for good |
| `TaskErrors.PruningIsInvisible` | internal/app/taskerrors/tracker.go:68-140 | one window, a nondecreasing now, one event per instance, the cap never hit: a snapshot counts the distinct instances ever recorded that are in the window, in whatever order records and reads came |
| `Agents.Registry.Ingest` | internal/app/registry/registry.go:91-121 | last writer wins per node; new, replaced and duplicate are reported as they are; an empty node id is refused |
| `Agents.Registry.Snapshot` | internal/app/registry/registry.go:125-146 | one report per node that is not stale, and each stale node evicted once |
| `Agents.ReachableBalance` | internal/app/registry/registry.go:91-146 | per node, connects and disconnects, emitted or pending, differ by the node's entry |
| `Agents.GaugeIsConserved` | internal/adapter/observability/metrics.go:303-308 | gauge + pending connects - pending disconnects is the number of entries in every reachable state |
| `Agents.GaugeRange` | internal/app/registry/registry.go:91-146 | for any ingests and snapshots in the order of the lock: over all interleavings of their emissions the gauge takes exactly the values from minus the number of evictions to the number of arrivals |
| `Agents.GaugeNegativeIff` | internal/app/registry/registry.go:132-142 | so it can go below zero if and only if some snapshot finds a stale entry to evict |
| `Agents.GaugeInOrder` | internal/app/registry/registry.go:105-109 | if no disconnect overtakes its node's connect the gauge is never negative |
| `Agents.GaugeCanBeNegative` | internal/app/registry/registry.go:105-109 | a disconnect can overtake its connect: the gauge can be -1 |
| `Agents.EntryIsLastIngest` | internal/app/registry/registry.go:98-103 | an entry is the last report ingested for its node |
| `Agents.EntriesMean` | internal/app/registry/registry.go:91-146 | a node has an entry exactly if no later snapshot found its last report older than the limit, and that report is the entry |
| `Agents.EvictsMeans` | internal/app/registry/registry.go:132-138 | a snapshot evicts exactly if some such entry is older than the limit |
| `Agents.MetricValue` | internal/adapter/metrics/distributed/distributed.go:46-79 | the average over the service's tasks in all reports, no data for none |
| `Agents.AverageMeans` | internal/adapter/metrics/distributed/distributed.go:46-79 | no data exactly if no report has a task of the service, otherwise sum over number of its tasks |
| `Agents.OneTask` | internal/adapter/metrics/distributed/distributed.go:55-62 | a task adds one to the number and the metric asked for to the sum if it is the service's, and nothing otherwise |
| `Agents.TasksAdd` | internal/adapter/metrics/distributed/distributed.go:52-62 | number and sum add up over tasks and reports |
| `Agents.AverageIgnoresOrder` | internal/adapter/metrics/distributed/distributed.go:52-75 | two snapshots of the same entries, in whatever map order, give one average: each node counts exactly once |

## Left out

- Documents that docker's schema refuses for a top-level count or mode: the folds read such keys, and the merge of them is modelled, but no deploy of them exists.
- Job modes are deployed as not replicated; what a job's tasks do is not modelled.
- Docker SDK, docker/cli, go-git, sops, Prometheus client, HTTP handlers and the UI: their answers are inputs.
- YAML decoding and Go templates: documents are typed values that keep absent and present fields, map and list labels, `deploy` and top-level placement. In place, the service maps are distinct objects; YAML anchors that make two services share one map, or two services share one `deploy` map, are not modelled.
- Service labels that are neither a map nor a list of scalars, and floats beyond the range Go converts to uint64.
- Flags, environment, logging, metric registration, and recorder calls other than the connected-agents gauge.
- Which services are stuck and which moves are planned (`healer`, `placement`, `rebalancer`) are inputs of a tick. `orphans`, `joinTaskEvents`, `Classify`, `Router`, `IsVersionConflict`, the reporter's backoff and `WithRetry`: single loops or branches.
- MD5: rotation's hash is any function of the content, with no claim that different content gets a different name.
- Tickers, timeouts, the post-deploy timer and other real-time liveness.
- Float rounding, NaN and infinite label values, and Go's conversion of a float beyond 2^64 in `Desired`.
- time.Duration and time.Time saturation: times are unbounded integers.
- Windows paths, volumes, and the text of errors.
- ControlLoop.LoopConverges: the loop under constant load has no metric at a count of 0, as with the agents' average; a Prometheus query can return a value there, and the service then goes towards its minimum.
- The gauges deleted on a disconnect, and the task-error gauges, which the reconciler publishes only when nonzero.
- Aliasing of the `Overrides` slices that the status store's copies share with the caller; file names, overrides and pull policy in the recorded file statuses.
- A panic inside the deferred status write, which ends the process.
- SyncStack.SyncLoop.Run: a panic is one of a call to git, the renderer, sops, the deployer or the compose functions, not of the loop's own code between them.
- UpdateProtocol.CounterCountsForceUpdates: gives two bounds, because a request whose reply was lost may or may not have been applied.
- Deploying.Deployer.Cleanup: a removal that fails leaves its file, as in the source, where the failure is only logged.
- StatusStore.Store.Snapshot: returns values, so it says nothing about detached copies.
