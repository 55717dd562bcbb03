# A verified model of the Karmada operator

The operator reconciles `KarmadaDeployment` objects: an installer controller puts a Karmada control
plane on a cluster with helm and removes it again, a summary controller starts one summary manager per
installed control plane, and the manager keeps writing a summary of the member clusters into the
object's status. All of them, and the users, share one versioned object in the API server, read it from
a cache that may be stale, and race on its finalizers and its status.

The project has three parts.

* **The reconcile protocol.** `Protocol` is a labelled state machine over the history of one object's
  versions: users, the cache, every API call of the two controllers, every tick of the manager
  goroutines, and helm. `Update` is a compare-and-swap; a status write replaces the whole status of
  whatever version is current; a write may take effect although its caller is told it failed.
  `Invariants` and `Steps` carry an inductive invariant, `Theorems` and `SingleWorker` the promises for
  every reachable state, `Managers` that a ready object gets its manager and a changed summary its write,
  `WorkingCopies` what a sync works on, `Failures` how a failure is recorded and read by a deletion;
  `WriteAheadRuns`, `Releases`, `Removals`, `Shutdown` and `Quiescence` are about whole runs; `Readiness`
  says when exactly readiness is lost, `StaleRuns` gives concrete runs in which a promise fails, and
  `FreshRuns` one of the whole life of an object (both from the steps in `Runs`).
  `StatusWrites`, `InstallerController` and `SummaryControllers` are the same code in its imperative
  form: a sync mutates its working copy statement by statement, and each of its API calls is proved to
  be one event of the protocol, with any number of events of everybody else in between
  (`World.Cluster.Others`). So every theorem about reachable states holds at every point of that code.
  The installer's and each worker's own events are logged (`World.Recorded`), and the contracts say which
  of them a method performs, in which order.
* **Chart values.** `ValuesSpec` says module by module what the chart values of a specification are;
  `ValuesComposer` is the code, on maps of shared mutable image objects, proved equal to it.
  `ImageRef` is the parsing of image references.
* **Summaries, queue and informers.** `Sums` and `Aggregation` prove the folds over Go maps equal to
  order-free sums and counts, `RetryQueue` bounds the installer's retries, `Informers` is the handler
  registry.

## Assumptions

* Status is a subresource and only the operator writes it
  (`charts/karmada-operator/_crds/install.karmada.io_karmadadeployments.yaml:549-550`).
* Users do not add or remove the operator's two finalizers, and names are not reused.
* `spec.mode` is not nil, and a new object has generation 1.
* `Config.ryow`, read your own writes: when a sync of the installer starts, its lister shows at least
  the installer's own last applied write. Nothing in the code ensures it. Only the results that say so
  use it; all others hold for every stale but monotone cache.
* `Config.nsFixed`: users do not edit the namespace of the control plane. Only the results about
  namespaces use it.
* Outcomes of remote calls (helm, namespaces, secrets, chart download) are arbitrary, except that helm
  refuses to install a release name that exists. There is one release per object: helm keeps names per
  namespace, so a second installation of the object in another namespace, possible when users edit the
  namespace (`nsFixed` false), is not modelled. The lookup that precedes an uninstall uses the empty
  namespace of a cluster-scoped object, so it may fail to find a release that exists.

## What the code does not promise

Three rules hold only under a condition, and each condition is exact.

* *The installer finalizer is only dropped after an uninstall, a recorded install-mode failure, or with
  a label that disables the cascade.* The check is made once, before the retry loop that re-reads the
  object. `Theorems.DropIsUnjustifiedIffSnapshotIsStale`: the rule breaks if and only if the snapshot
  of the sync asks for the cascade and predates the first version with a condition.
  `StaleRuns.StaleReadLeaksRelease` is such a run: the object is gone, the release stays.
* *A ready control plane stays ready.* `Readiness.ReadyIsLostIff`: a step takes readiness away if and
  only if it is a status write by somebody who read a version that was not ready and has not itself
  completed the installation since. That never happens when the installer reads its own writes
  (`Theorems.ReadyIsAbsorbing`). `StaleRuns.StaleReadRevertsReady` is a run in which it does: an old
  status overwrites the ready one, and `GetSummaryManager` dereferences a nil secret reference.
* *A module of the specification may set a pull policy.* The conversion dereferences nil
  (`ValuesComposer.Convert`) if and only if some entry has a pull policy while its module has no default
  from its group and no image in that or an earlier entry. `ValuesSpec.EtcdPolicyPanics`: a policy for
  etcd alone is enough, since the operator's own default, the Karmada version, gives etcd no image.

One more holds as long as callers keep to a rule: the handler index of the informers agrees with what is
attached, without duplicates. `Informers.SafeRequests`: it does so under every interleaving of the
registrations if and only if no pair of resource and handler that is not registered yet is requested
twice. For every such double request `Informers.TwiceBreaks` builds a schedule that attaches the handler
twice. One manager registers its handler once per resource, one after the other, and is safe.

## Model

| member | source | states |
|---|---|---|
| Theorems.EveryVersionIsCoherent | pkg/installer/helm/install.go:81-98 | in every version ever stored and every working copy, however stale the writers: the phase is one of four, completed iff ready iff a secret reference is set, and Ready=True only when completed |
| Theorems.DeletionOnlyShrinks | pkg/controller/installer_controller.go:210-240 | between any two versions: deletion stays, finalizers of a deleting object only shrink, a recorded condition stays recorded |
| Theorems.DropIsSurgical | pkg/controller/installer_controller.go:229-238 | an applied drop of the installer finalizer leaves the current version otherwise unchanged (other finalizers, spec, label, status), and only happens to a deleting object |
| Theorems.UnfinalIsSurgical | pkg/controller/summary/summary_controller.go:223-227 | the same for the drop of the summary finalizer |
| Theorems.AddIsSurgical | pkg/controller/summary/summary_controller.go:231-237 | an applied add of the summary finalizer adds that finalizer and nothing else, to an object that is not deleting |
| Theorems.VanishesWithLastFinalizer | pkg/controller/summary/summary_controller.go:216-229 | an event makes the object vanish iff it takes the last finalizer of a deleting object or deletes one without finalizers |
| Theorems.DropExcludesUnfinal | pkg/controller/installer_controller.go:220-239 | of two removals from one version the summary controller's conflicts once the installer's is in, and its finalizer is still there |
| Theorems.UnfinalExcludesDrop | pkg/controller/summary/summary_controller.go:223-227 | the converse: the installer's removal conflicts once the summary controller's is in |
| Removals.RunRemoves | pkg/controller/installer_controller.go:220-239 | over every run whose only applied writes are removals, with any retries in between, the object loses exactly the finalizers removed in the run and nothing else |
| Removals.RemovalsCommute | pkg/controller/summary/summary_controller.go:216-229 | any two such runs with the same removals, in whatever order, leave the same object |
| Removals.EitherMayWin | pkg/controller/installer_controller.go:220-239 | executed to the end both ways: one removal wins, the other conflicts, reads the new version and removes its own finalizer from it; both runs end in the same object |
| Theorems.DefaultingFillsGaps | pkg/controller/installer_controller.go:251-292 | the defaulting update adds the finalizer and changes the current version only where it had no value: a missing cascade label becomes "false", a missing namespace begins with the name and a dash, a missing service type becomes ClusterIP, a missing Karmada version v1.5.0; the generation goes up iff the spec changed |
| Theorems.ReadyIsAbsorbing | pkg/installer/helm/install.go:83-96 | with fresh reads, after a ready version every version is ready |
| Readiness.ReadyIsLostIff | pkg/status/phase.go:28-43 | for every cache, a step takes readiness away iff it is a status write, of the installer or of a manager, by somebody who read a version that was not ready and has not itself completed the installation since |
| Theorems.NoInstallOnceReady | pkg/installer/helm/install.go:83-96 | with fresh reads, when a helm install is issued no version has ever been ready |
| Theorems.ReadyRunsInstallNothing | pkg/installer/helm/install.go:94-96 | no run from a ready state contains a helm install |
| Theorems.NeverPanics | pkg/controller/summary/summary_controller.go:283-286 | with fresh reads the secret reference dereferenced for a new manager is always set |
| Theorems.SummaryFinalizerMeansReady | pkg/controller/summary/summary_controller.go:113-129 | with fresh reads an object with the summary finalizer is ready, so the event filter passes its deletion between any two versions |
| Managers.BecomingReadyQueues | pkg/controller/summary/summary_controller.go:100-124 | told that the object became ready, from an older version or from none, the controller queues it |
| Managers.OnlyDeletionQueuesAgain | pkg/controller/summary/summary_controller.go:115-129 | told of a later ready version of an object that was ready, it queues it iff that version is being deleted |
| Managers.DeletionQueues | pkg/controller/summary/summary_controller.go:115-129 | with fresh reads, told of the deletion of an object with the summary finalizer, the controller queues it, whichever live version it was told of before |
| Managers.ReadyIsServed | pkg/controller/summary/summary_controller.go:100-129 | in every reachable state, for every cache: once told of a ready version, the key is queued, or a sync is under way, or a worker of the registered manager was started, or the cache shows the deletion |
| Managers.StartDecides | pkg/controller/summary/summary_controller.go:195-237 | a sync ends at once without a listed object, takes a deleting one down, adds the finalizer to a live one that lacks it, and otherwise goes to the manager |
| Managers.TickDecides | pkg/controller/summary/summary_manager.go:143-184 | a tick decides to write iff the lister has the object, the lists could be read, and the stored summary is not the computed one; what it will write is the status it read with that summary |
| Theorems.DeletionIsNotForgotten | pkg/controller/summary/summary_controller.go:174-193 | with fresh reads a deletion the controller was told of stays queued or in work until the summary finalizer is gone |
| Theorems.FinalizerDropIsJustified | pkg/controller/installer_controller.go:210-240 | with fresh reads, after any helm install, the finalizer is dropped only after an uninstall that returned nil, with a failed install mode, or without the cascade label |
| Theorems.DropIsUnjustifiedIffSnapshotIsStale | pkg/controller/installer_controller.go:211-217 | without freshness, that rule breaks iff the snapshot asks for the cascade and predates the first condition |
| WriteAheadRuns.UninstalledInRun | pkg/controller/installer_controller.go:211-218 | a sync counts as having uninstalled only if an uninstall returned nil in that same sync |
| Failures.DeletionDecision | pkg/controller/installer_controller.go:210-218 | a deletion uninstalls first iff the cascade label is "false", some condition was recorded, and none of them is a failed install mode |
| Failures.FailuresAreRecorded | pkg/installer/installerfactory.go:59-66 | a sync writes a failure exactly for a missing installer, a failed download, failed values and a failed helm install, each under its own reason; only a missing installer is a failed install mode |
| Failures.FailedModeHasACause | pkg/apis/install/v1alpha1/helpers.go:67-76 | over every run: a version shows a failed install mode only if GetInstaller failed in the run |
| Failures.FailedModeIsDeletable | pkg/controller/installer_controller.go:210-239 | an object whose install mode failed is deleted in three steps, without an installer |
| Failures.NoInstallerNoUninstall | pkg/installer/installerfactory.go:99-117 | for a mode without an installer an uninstall fails every time |
| Theorems.OneNamespace | pkg/controller/installer_controller.go:264-266 | with namespaces left alone, every Deploy, Uninstall and release of the object uses the one stored namespace, whatever names were generated in memory |
| Theorems.StaleDefaultsLose | pkg/controller/installer_controller.go:285-290 | a sync that generated a name for a snapshot without namespace cannot store it, nor continue, once a namespace was stored |
| Theorems.WriteAhead | pkg/installer/helm/install.go:196-199 | at every helm install the object exists with the installer finalizer, and a version with a condition and phase Deploying entered the history after this sync began |
| WriteAheadRuns.WriteAheadInRun | pkg/installer/helm/install.go:196-199 | in every run, between the start of the sync and its helm install lies an acknowledged status write of that sync that stored phase Deploying with a condition, whatever earlier syncs stored |
| WorkingCopies.InstallsWhatWasRead | pkg/controller/installer_controller.go:242-247 | what helm is asked to install is a stored version that was not deleting, gaps filled with the defaults, for a mode that has an installer, with its generation observed |
| WorkingCopies.FetchesAfterPreflight | pkg/installer/helm/install.go:100-112 | the chart is only fetched after this sync stored phase Preflight, or found it in place |
| WorkingCopies.WritesObserved | pkg/installer/installerfactory.go:83-91 | every status a sync of a live version writes, failures included, says that the generation it read is observed |
| WorkingCopies.StartUpdatesIff | pkg/controller/installer_controller.go:251-291 | a sync of a live version begins with an update iff the cascade label or the finalizer is missing; past it the conditions are reset iff the generation is new |
| Releases.ReleaseFollows | pkg/installer/helm/uninstall.go:55-88 | the helm release is made only by an install, in the namespace of the working copy, and removed only by the user or by an uninstall that found it; any other event leaves it |
| Releases.ReleaseWasMade | pkg/installer/helm/install.go:201-237 | a release that is there was made in the run, in its namespace, and not removed since |
| Releases.InstallsAreCounted | pkg/installer/helm/install.go:228-239 | the number of helm installs in the state is their number in the run |
| Theorems.ManagersAreProtected | pkg/controller/summary/summary_controller.go:250-292 | a registered manager implies the object exists with the summary finalizer; the managers not shut down are exactly the registered one; without the object none is |
| Shutdown.ShutdownBound | pkg/controller/summary/summary_manager.go:129-141 | in every run after the shutdown a worker starts at most one more tick, only if it was about to, makes at most one more status write, only if it was about to tick or write, and at its next turn leaves the loop for good |
| Shutdown.OneWriteAfterShutdown | pkg/controller/summary/summary_controller.go:250-262 | with fresh reads at most one summary write follows the shutdown in any run |
| Quiescence.SettledRunsAreQuiet | pkg/controller/summary/summary_manager.go:172-184 | once the summary is stored and visible, and nobody has another one in hand, every run whose ticks compute that summary ends so, whatever else happens in it, and has at most the summary writes that were in hand at its start: none, if none were |
| Quiescence.QuietAfterWrite | pkg/controller/summary/summary_manager.go:172-184 | a summary write changes the status alone; after any run in which the cache catches up with it and no other summary is computed or written (ticks, more writes of the same summary and installer writes that carry it are allowed), later ticks that compute it start no write |
| SingleWorker.OneWorker | pkg/controller/summary/summary_controller.go:239-243 | with fresh reads at most one worker ever runs for the object |
| StaleRuns.StaleReadLeaksRelease | pkg/controller/installer_controller.go:210-240 | a run without fresh reads that ends with the object gone and the helm release in place |
| StaleRuns.StaleReadRevertsReady | pkg/status/phase.go:28-43 | a run without fresh reads in which readiness is overwritten and the summary controller dereferences nil |
| FreshRuns.WholeLife | pkg/controller/installer_controller.go:187-248 | with fresh reads the whole life of an object is a run: installed once, ready, a summary stored, deleted, manager shut down, release removed, object gone, worker ended |
| Steps.StepInv | pkg/status/phase.go:28-43 | every event of every actor keeps the invariant, in particular a status write of any historical status |
| Steps.ReachableInv | pkg/status/phase.go:28-43 | every reachable state satisfies the invariant |
| Api.SetStatusConditionIsUpdate | pkg/apis/install/v1alpha1/helpers.go:45-51 | the setter leaves exactly one condition of its type, the new one, and all other types as they were |
| Api.SettersKeepInv | pkg/apis/install/v1alpha1/helpers.go:31-65 | the three setters keep the status invariant, replace the conditions by the one they are about and change nothing else; a failed install mode shows iff that was the reason; Ready=True needs a completed phase |
| World.Cluster.Perform | pkg/controller/installer_controller.go:187-248 | one enabled event extends the recorded run, so the state stays reachable, and the logs of the installer and of each worker stay exactly their parts of the run |
| World.Cluster.Others | pkg/controller/summary/summary_controller.go:164-172 | any number of events of the other actors keep the state reachable and leave the actor's own part and log alone |
| World.Cluster.Decide | pkg/controller/installer_controller.go:235-237 | an update is only applied to the version that was read; a conflict is only reported for another one |
| StatusWrites.TryUpdate | pkg/status/phase.go:30-42 | the retry loop performs no event of its actor and only reports a write as applied to an object that exists; it gives up on conflicts after exactly four of them |
| StatusWrites.SetStatus | pkg/status/phase.go:28-43 | exactly one status event of its actor is performed; if it was applied that status is stored, and nil means it was |
| InstallerController.InstallWorkflow.Preflight | pkg/installer/helm/install.go:100-128 | its own events are exactly the write of the phase, if that is acknowledged the download, and if that fails the write of the failure |
| InstallerController.InstallWorkflow.Deploy | pkg/installer/helm/install.go:193-248 | its own events are exactly the write of the Deploying phase, if and only if that is acknowledged the helm call, and after a failure other than that of the namespace the write of it |
| InstallerController.InstallWorkflow.Completed | pkg/installer/helm/install.go:322-384 | nil means the stored status is the one before with phase Completed, ready, the collected secret reference, version v1.5.0 and the Kubernetes version found; without a secret nothing is written |
| InstallerController.InstallWorkflow.Install | pkg/installer/helm/install.go:81-98 | in the phases that allow it its own events are those of the three phases up to the first that fails; in any other phase there are none and the result is nil |
| InstallerController.Uninstall | pkg/installer/helm/uninstall.go:55-88 | its one event is the uninstall, and the result is nil iff the release was not found or its namespace was deleted |
| InstallerController.SyncInstall | pkg/installer/installerfactory.go:59-81 | without an installer, as for any other mode than "" or Helm, its events are the failed choice and one status write that shows a failed install mode, stored if it was applied; else the workflow's events and result |
| InstallerController.SyncUninstall | pkg/installer/installerfactory.go:59-81 | nil iff the uninstall ran and succeeded, which continues the deletion with the uninstall recorded; without an installer one status write shows a failed install mode, stored if it was applied |
| InstallerController.Sync | pkg/installer/installerfactory.go:83-97 | nil means Ready=True, a completed phase and the generation as observed are stored, an error means one of the sync's own events failed |
| InstallerController.Observe | pkg/installer/installerfactory.go:84-89 | one status write exactly if the generation was not observed; the sync goes on whatever its outcome |
| InstallerController.FillDefaults | pkg/controller/installer_controller.go:251-284 | the in-place defaulting equals the pure function and fills each gap with its default and nothing else; an update is due iff the label or the finalizer was missing |
| InstallerController.InitDefaultValues | pkg/controller/installer_controller.go:285-291 | performs exactly one update when one is due and none otherwise; an error ends the sync, whether or not the server applied the update |
| InstallerController.DropFinalizer | pkg/controller/installer_controller.go:220-239 | reads and updates alternate, with at most five updates, and exactly five if it gives up on a conflict; nil only when the lister has no such object or no such finalizer, or the current version lost it |
| InstallerController.SyncHandler | pkg/controller/installer_controller.go:187-248 | no event of its own without a listed object, else the first one starts the sync; nil for a live object means Ready=True, completed and the generation that was read as observed are stored, nil for a deleting one means the finalizer is gone, an error means one of its own events failed |
| SummaryControllers.SummaryManager.Shuntdown | pkg/controller/summary/summary_manager.go:332-338 | the channel is closed exactly once however often it is called |
| SummaryControllers.SummaryController.RemoveKarmadaDeployment | pkg/controller/summary/summary_controller.go:250-262 | the named manager is shut down and unregistered, all others are untouched |
| SummaryControllers.SummaryController.GetSummaryManager | pkg/controller/summary/summary_controller.go:265-292 | returns the registered manager or registers a new one; dereferences nil iff there is neither a manager nor a secret reference |
| SummaryControllers.SummaryController.SyncKmdStatusResource | pkg/controller/summary/summary_controller.go:195-246 | one sync performs only events of the protocol and keeps the map in agreement with it; an error re-queues the key, nil means a worker was started, the finalizer was dropped or the lister has no object; with fresh reads nil is never dereferenced |
| SummaryControllers.ProcessNext | pkg/controller/summary/summary_manager.go:143-184 | the worker's own events are one comparison with exactly the summary of the listers and at most one write; it writes iff the lister has the object, every list can be read and the stored summary differs, and an applied write stores the status it read with the new summary |
| SummaryControllers.Worker | pkg/controller/summary/summary_manager.go:129-141 | each round is one tick on the next lists and one turn of the loop, besides status writes; a worker started after the shutdown makes at most one tick; stopping early means its manager was shut down |
| ValuesComposer.GroupImages | pkg/installer/helm/values.go:128-169 | every module's image is its group's default, as an object of its own |
| ValuesComposer.ReadImage | pkg/installer/helm/values.go:183-205 | one entry overrides the image of its module alone, in place for the pull policy; nil dereference iff a policy has no image |
| ValuesComposer.Values.ReadModules | pkg/installer/helm/values.go:173-209 | after the loop every image and every replica count is the specified one for the whole list, duplicates included; nil dereference iff the specification says so |
| ValuesComposer.Values.MergeImages | pkg/installer/helm/values.go:211-225 | whatever the iteration order, each module takes its own image and etcd's goes to the etcd values only |
| ValuesComposer.Convert | pkg/installer/helm/values.go:106-244 | new objects, pairwise separate images, contents equal to the per-module specification; nil dereference iff some entry has a pull policy and its module has no group default and no image in that or an earlier entry |
| ValuesComposer.Values.FillModule | pkg/installer/helm/values.go:262-287 | completes one module's image in place, without touching any other module's contents |
| ValuesComposer.Values.PinModules | pkg/installer/helm/values.go:306-317 | IfNotPresent on exactly the Karmada and docker.io modules, all other contents unchanged |
| ValuesComposer.Values.SetDefaults | pkg/installer/helm/values.go:249-337 | the in-place pass equals the per-module default function and keeps all images separate |
| ValuesComposer.Compose | pkg/installer/helm/install.go:117-127 | conversion followed by defaulting equals one per-module function of the specification |
| ValuesSpec.BothPasses | pkg/installer/helm/install.go:117-127 | the two passes together leave, for each module, its last replicas, its defaulted image, host network off and the service type on the API server only |
| ValuesSpec.DefaultsAreIdempotent | pkg/installer/helm/values.go:249-337 | applying the chart defaults twice is applying them once |
| ValuesSpec.DefaultsKeepAndComplete | pkg/installer/helm/values.go:249-317 | user replicas and service types survive, and so does every part a user's image has; kubectl and cfssl images come out complete with only missing parts filled in; pinned modules pull IfNotPresent; nothing else changes |
| ValuesSpec.LastImageWins | pkg/installer/helm/values.go:183-205 | the last explicit image of a module replaces its group default and all earlier images, with the last pull policy given since |
| ValuesSpec.ExplicitImageReachesChart | pkg/installer/helm/values.go:183-205 | registry, repository and tag of a module in the chart are those of its last explicit image: put together they are that string, iff its last colon is not its last character past position 0 and it does not start with a slash; the policy is the last given since, or the pinned one |
| ValuesSpec.GroupDefaultStays | pkg/installer/helm/values.go:128-169 | without an explicit image the group default stays, with the last pull policy given |
| ValuesSpec.GroupReachesChart | pkg/installer/helm/values.go:128-169 | for each of the thirteen modules without an explicit image: the registry and version of its own group reach the chart, none of the version for etcd and the job images, whose registry, repository and tag have defaults |
| ValuesSpec.ChartShows | pkg/installer/helm/values.go:111-126 | etcd's storage mode, class and size, the service type and host network of the API server alone, the components, and the six certificate hosts followed by the external ones |
| ValuesSpec.ReplicasAreLast | pkg/installer/helm/values.go:174-182 | the last entry decides a module's replicas, even if it sets none; for etcd the last entry that sets some |
| ValuesSpec.ImageIsMissing | pkg/installer/helm/values.go:183-205 | after the whole list a module has no image iff its group gives none and no entry of it names one |
| ValuesSpec.EtcdPolicyPanics | pkg/installer/helm/values.go:203-205 | a pull policy for etcd in a specification with nothing but the operator's own defaults dereferences nil |
| ImageRef.PrintParse | pkg/installer/helm/values.go:183-202 | printing the parsed reference gives the string back iff its last colon is not its last character past position 0 and it does not start with a slash |
| ImageRef.ParsePrint | pkg/installer/helm/values.go:183-202 | parsing the printed reference gives the parts back iff the registry has no slash (nor the repository without a registry), the tag no colon, an untagged base no colon past position 0, and a tagged reference a base that is not empty |
| Sums.SumWithout | pkg/controller/summary/summary_manager.go:342-345 | the sum over a map is the same whichever key is taken first |
| Sums.PartialSumsFit | pkg/controller/summary/summary_manager.go:341-345 | with non-negative values and a total below 2^31 no partial sum overflows an int32, in any order |
| Aggregation.AggregateNodeSummary | pkg/controller/summary/summary_manager.go:340-350 | the int32 loop in arbitrary order equals the wrapped mathematical sums |
| Aggregation.AggregateClusterSummary | pkg/controller/summary/summary_manager.go:389-401 | counts the clusters, and those with Ready=True among them |
| Aggregation.CheckReady | pkg/controller/summary/summary_manager.go:403-421 | true iff some condition has the kind and status True |
| Aggregation.CalculateResourceList | pkg/controller/summary/summary_manager.go:362-387 | adds the five resources in place, or into a new map for nil, and leaves the summand alone |
| Aggregation.AnyOrder | pkg/controller/summary/summary_manager.go:352-360 | every visiting order gives the same exact totals: for each of five resources the sum over clusters, no other name, nil without clusters |
| Aggregation.AggregateResourceSummary | pkg/controller/summary/summary_manager.go:352-360 | the loop in arbitrary order computes those totals and modifies no per-cluster map |
| Aggregation.ClusterSyncHandler | pkg/controller/summary/summary_manager.go:232-288 | the three summaries as functions of the listed clusters, none without clusters |
| Aggregation.WorkLoadsSyncHandler | pkg/controller/summary/summary_manager.go:200-230 | the length of the list, and the number of positions in it whose deployment is available |
| Aggregation.CountLists | pkg/controller/summary/summary_manager.go:298-318 | the length of every list, or an error iff some list fails |
| Aggregation.SyncHandler | pkg/controller/summary/summary_manager.go:186-197 | the whole summary is one function of the lister contents, whatever the map orders, and fails iff a list fails |
| Aggregation.SummaryCountsLists | pkg/controller/summary/summary_manager.go:290-318 | the four core lists, the two policy lists and the deployments are counted in their own fields, exactly below 2^31; there is no summary iff one of the eight lists cannot be read |
| Aggregation.EntriesAreListed | pkg/controller/summary/summary_manager.go:254-281 | with distinct names each of the three maps has exactly what each listed cluster reports |
| Aggregation.LastEntryWins | pkg/controller/summary/summary_manager.go:254-281 | of several listed objects with one name the last that reports something decides it, field by field |
| Aggregation.SummaryShowsClusters | pkg/controller/summary/summary_manager.go:232-288 | nodes, conditions and resources each in their own field: per cluster as listed, in total as summed or counted over the list; none without clusters |
| Aggregation.NodeSumsAreListSums | pkg/controller/summary/summary_manager.go:254-266 | with distinct names the map sums are the sums over the listed clusters |
| Aggregation.NodeTotalsAreListSums | pkg/controller/summary/summary_manager.go:340-350 | for distinctly named clusters with sound counts whose sum is below 2^31 the node totals are the sums over the list, and no more nodes are ready than there are |
| Aggregation.ResourceTotalsAreListSums | pkg/controller/summary/summary_manager.go:352-387 | with distinct names the total of each of the five resources, in each of the three lists, is the sum over the listed clusters; no other name, and nil iff no cluster reports |
| Aggregation.ClusterCountsAreListCounts | pkg/controller/summary/summary_manager.go:277-280 | with distinct names the map of conditions has as many entries, and as many ready ones, as the list has clusters |
| Aggregation.NodeTotalsAreExact | pkg/controller/summary/summary_manager.go:340-350 | sound counts below 2^31 give exact totals, no intermediate overflow, and no more ready nodes than nodes |
| Aggregation.ClusterTotalsAreExact | pkg/controller/summary/summary_manager.go:389-401 | for fewer than 2^31 distinctly named clusters the totals are the number of listed clusters with conditions and of the ready ones among them |
| Aggregation.WorkLoadTotalsAreExact | pkg/controller/summary/summary_manager.go:222-226 | for fewer than 2^31 deployments the totals are the length of the list and the number of available ones in it |
| Aggregation.ListedAreRegistered | pkg/controller/summary/summary_manager.go:91-108 | the resources the summary lists are exactly those the manager registers |
| RetryQueue.ProcessNext | pkg/controller/installer_controller.go:165-185 | after one sync: the key's counter, whether an event puts it back at the end of the queue, and whether it waits as a rate-limited re-add, which is separate from the queue and may come due at any later time; nothing else changes |
| RetryQueue.CountIsReadds | pkg/controller/installer_controller.go:173-183 | the counter is the number of rate-limited re-adds since the last Forget, or since the beginning, and never passes 30 |
| RetryQueue.AtMostThirtyReadds | pkg/controller/installer_controller.go:176-179 | between two Forgets there are at most 30 re-adds, whatever fails when |
| RetryQueue.PermanentFailure | pkg/controller/installer_controller.go:173-183 | a key that always fails is re-added 30 times and dropped at its 31st sync with its counter at 0 |
| RetryQueue.DrainFailing | pkg/controller/installer_controller.go:165-185 | without events a queue of failing keys, queued or waiting, runs dry after exactly the syncs their counters allow, whenever the waits end, all counters reset |
| Informers.InformerManager.IsHandlerExist | pkg/controller/summary/informermanager/informer_manager.go:122-138 | the search finds the handler iff it is registered for the resource |
| Informers.InformerManager.ForResource | pkg/controller/summary/informermanager/informer_manager.go:104-112 | attaches and indexes the handler unless it is already registered |
| Informers.SequentialRegistration | pkg/controller/summary/informermanager/informer_manager.go:104-153 | any sequence of registrations keeps the index in agreement with what is attached, without duplicates, and attaches exactly the requested pairs |
| Informers.RacingRegistrations | pkg/controller/summary/informermanager/informer_manager.go:104-153 | any number of registrations under any interleaving of their three critical sections: all requested pairs and nothing else are registered, and the run ends in agreement without duplicates iff no two of one pair both passed the check |
| Informers.SafeRequests | pkg/controller/summary/informermanager/informer_manager.go:104-153 | for an index in agreement, every finished schedule of the requested registrations ends in agreement without duplicates iff no pair not yet registered is requested twice |
| Informers.TwiceBreaks | pkg/controller/summary/informermanager/informer_manager.go:104-112 | for every double request of a pair not yet registered, among any other registrations, a schedule that finishes them all and breaks the agreement |
| Informers.BothPassTheCheck | pkg/controller/summary/informermanager/informer_manager.go:104-112 | the shortest such run: two registrations of one pair from the empty index attach the handler twice |
| Informers.InformerManager.WaitForCacheSync | pkg/controller/summary/informermanager/informer_manager.go:174-184 | the synced set grows by exactly the resources reported as synced |
| Informers.NewSummaryManager | pkg/controller/summary/summary_manager.go:79-111 | the manager's one handler is attached exactly once to each of its eight resources, and nothing else is |
| Informers.AllCollected | pkg/controller/summary/summary_manager.go:46-59 | those resources are the four core ones, the two policies, clusters and deployments |

## Left out

- The installer's event filter (`UpdateEvent`) and its queue are not part of the protocol: a sync may start at any time, which allows more runs than the code has. The queue is modelled on its own; how long a rate-limited key waits is left open, and events for other keys during a sync are placed before or after it.
- The protocol follows one object; syncs of one key are serial, and the two controllers share nothing between objects except the map of managers, which is modelled with all names.
- Restarts of the operator: the protocol starts with a new object and an operator that lives on. After a nil dereference in the summary controller that controller makes no further step; one while composing chart values is a result of `ValuesComposer.Convert` but no event of the protocol.
- Module, resource and finalizer names are constructors of a datatype, with one more constructor for every other name.
- Liveness of an installation: after a successful helm install a failed Completed phase makes the retry run helm install on an existing name, so completion is not guaranteed.
- The summary controller retries without bound; only its re-queue on error is modelled.
- SummaryControllers.Worker: bounded by the number of listings it is given, because the loop in the operator runs until a channel is closed; the wait for the caches before the loop is left out.
- ValuesComposer.Convert: a nil KarmadaDeployment, which no caller passes, is not modelled; nor are node ports, the install mode, the certificate expiry and mode, and YAML output. The specification it reads is a value, so it cannot be changed.
- ImageRef.PrintParse: the printed form, the parts joined with a slash and a colon, is this model's own; no code in the repository prints a reference, and the chart that consumes the parts is not part of this model. Positions are characters, not bytes.
- Aggregation.SyncHandler: quantities are exact integers in their smallest unit, without a display format; the summary stored in the API keeps the difference between nil and empty maps, which a semantic comparison ignores.
- Condition messages, transition times and observed generations of conditions; labels other than the cascade label; fields of the specification that no modelled code reads.
- Finalizers and sets of resources have no order, and the order of an image map's iteration is arbitrary.
- helm and its chart repository, kubeconfig handling, secrets, namespaces and the cleanup of jobs and roles: only their success or failure and the release's namespace are modelled.
- Stopping the informers' context, parent channels and the lock implementation: the critical sections are atomic steps.
- Generated clients, the command line, leader election, logging.
