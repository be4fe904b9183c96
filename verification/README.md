# The operator's convergence protocols, in Dafny

The operator installs AI workloads and its own UI extension, and every one of its
controllers works the same way: it reads what is there, decides one step, writes, and
may be cut off between any two writes. This project models the parts of it where that is
hard to get right, and proves what holds over every run.

- **Recovery operations** (`operations`, `runs`, `writes`, `crash_safety`, `triggers`,
  `requests`, `success`, `failures`, `progress`, `controller`). A request arrives as an annotation, becomes a durable
  journal in one write, is decided by later passes and ends as journal, projection,
  clear. The stored object is a log of versions, and a version's resource version is its
  index. A pass starts from any version, possibly an old one; each of its writes may land,
  be refused, land without an answer, or meet somebody else's edit. `Runs` shows that
  every run is a chain of legal versions, and the theorems about journals, requests and
  verdicts are about all such chains.
- **Rendering, certification, phases** (`rendering`, `status_pass`, `certify`, `matrix`,
  `phases`, `keys`, `baselines`, `baseline_runs`, `workload`). What a Running verdict, a certified
  version, a failed cell and a render baseline say about the fleet.
- **Pull secrets** (`pull_secrets`, `pod_restarter`, `bounce_budget`, `restart_rules`). Two ways of
  recreating pods: one within a budget kept on the controller object, one that stops
  because it runs out of pods.
- **Helm releases** (`helm_release`, `helm_client`, `convergence`, `release_writes`,
  `chart_cache`). The
  decision over release storage, the memo of renders that changed nothing, the cache of
  pulled charts, and when a pass may stay quiet.
- **The extension controller's clocks** (`wait_clocks`, `extension_controller`,
  `bounded_waits`, `pass_ends`, `backoff`). Four waits timed by annotations and a retry interval
  without a counter.
- **The catalog** (`catalog_sync`, `catalog_refresh`, `catalog_entries`, `catalog_report`). Regeneration as
  a fixed point that does not depend on the order of its input, and its report.
- **Names** (`naming`), and sorting (`ordering`) for all of them.

Where the source changes state in place, so does the model: the reconcilers, the API
server, the Helm client, the cache and the pod restarter are classes whose methods are
shown equal to functions, and the theorems are about those functions.

Some things the code does not do, each with the exact condition under which it does:

- An upgrade request for the version the spec already has is answered by a retry that
  removes the retry request instead. It stays, and until a user edits the object every
  stored version is one more retry and no status is written
  (`Triggers.RequestIsConsumed`, `Triggers.SameVersionUpgradeStarves`).
- A rollback takes its target from the record its success is judged by, so it succeeds
  without any certification (`Success.RollbackIsBornDeployed`).
- The render digest does not cover the release name (`Rendering.DigestIgnoresReleaseName`).
- A pod is deleted by name. When the list is behind, a StatefulSet pod that was recreated
  already can be hit again, and the uncounted path loses its bound
  (`BounceBudget.RecreationShrinks`, `BounceBudget.StaleListHitsTheReplacement`).
- After a good write a release is written again when its manifest cannot be read back
  (`Convergence.WhenAppliedWritesAgain`).
- The marker of the extension's release is dropped by passes that never look at it, so
  that wait may start over. A readiness wait leaves the Ready condition alone, so the end
  of such a pass may go by an older reason (`BoundedWaits.UnaskedStampStays`). The comment
  on `inReleasePendingWait` says otherwise; the model follows the code.
- A controller remembers one bounced pod. A pod that is gone but still listed is counted
  again when another one was bounced since (`BounceBudget.GonePodsCountAgain`,
  `BounceBudget.TwoPodsSpendThree`).
- A publication to git in the middle of a pass takes back the baselines observed before it.
  A rejection that follows is then taken for the condition that was there before
  (`BaselineRuns.ObservationsSurvive`, `BaselineRuns.PublicationHidesRejection`).
- A retry waits for the bundle names of the first blueprint, not of the one it renders
  (`Success.RetryWaitsForTheList`, `Success.RetrySyncsTheFirstBlueprint`).
- A downstream cluster that is listed twice is expected twice
  (`Keys.ExpectedClustersAddUp`).
- A pass that settles without building a matrix, for a chart that is too large or a
  blueprint that is gone, leaves the cells of an earlier pass for the operation to be
  judged by (`Failures.GoneBlueprintFails`, `Failures.FailureIsOfTheLastMatrix`).

## Model

| member | source | states |
|---|---|---|
| `Controller.Reconciler.HandleTriggers` | operator/internal/controller/aiworkload/operations.go:53-98 | at most one request is answered, upgrade before rollback before retry, and a handled one ends the search; the object and the log change as the trigger says and in no other way |
| `Controller.Reconciler.StartVersionOp` | operator/internal/controller/aiworkload/operations.go:101-115 | outgoing journal kept as superseded, spec version and journal set, one Update |
| `Controller.Reconciler.StartRetry` | operator/internal/controller/aiworkload/operations.go:118-126 | epoch raised and retry journal set in one Update |
| `Controller.Reconciler.FinishTrigger` | operator/internal/controller/aiworkload/operations.go:130-146 | request removal, identity and journal go out in one Update |
| `Controller.Reconciler.ProjectOperation` | operator/internal/controller/aiworkload/operations.go:33-47 | the journal is copied to the status; without one a finished operation the spec moved on from is retired |
| `Controller.Reconciler.RetrySyncSettled` | operator/internal/controller/aiworkload/operations.go:248-263 | true exactly when every listed BundleDeployment of every bundle name reports a generation of at least the epoch |
| `Controller.Reconciler.Decided` | operator/internal/controller/aiworkload/operations.go:190-209 | gathers certification, failed cells and drift and decides on them |
| `Controller.Reconciler.ReconcileOperation` | operator/internal/controller/aiworkload/operations.go:184-238 | decide, then journal, project and clear, each write only after the one before was answered |
| `Controller.Reconciler.Reconcile` | operator/internal/controller/aiworkload/aiworkload_controller.go:151-227 | one whole reconcile, from a possibly stale read, stores exactly what the machine in Operations says, for every fate of every write |
| `Controller.Reconciler.ReconcileStatus` | operator/internal/controller/aiworkload/blueprint.go:91-128 | fills in the bundle names in a write of their own, or runs the status pass |
| `Controller.Reconciler.ReconcileBlueprintStatus` | operator/internal/controller/aiworkload/blueprint.go:91-263 | the status pass: missing blueprint, render loop, fleet steps |
| `Controller.Reconciler.RenderComponents` | operator/internal/controller/aiworkload/blueprint.go:131-216 | the render loop stops at the first component that cannot be rendered, with the phase and result of that failure; a publication takes the copy back to the stored baselines |
| `Controller.Reconciler.RecordRenderBaselines` | operator/internal/controller/aiworkload/blueprint.go:535-541 | one baseline per HelmOp of a component, up to the first failed read |
| `Controller.Reconciler.ReconcileFleet` | operator/internal/controller/aiworkload/blueprint.go:218-262 | cleanup, prune, matrix, cluster statuses, phase and certification, in that order |
| `Controller.Reconciler.CertifyDeployedSource` | operator/internal/controller/aiworkload/certify.go:82-119 | the loop over the desired HelmOps and what it leaves in the deployed record |
| `Controller.ApiServer.Update` | operator/internal/controller/aiworkload/aiworkload_controller.go:151-180 | a write is accepted only at the current version, keeps the stored status, and its answer overwrites the copy |
| `Controller.ApiServer.UpdateStatus` | operator/internal/controller/aiworkload/aiworkload_controller.go:181-195 | a status write stores the status and nothing else |
| `Runs.PassIsLegal` | operator/internal/controller/aiworkload/aiworkload_controller.go:151-227 | a pass from any stale copy, cut off anywhere, forgets no stored version and adds only versions that follow legally from the one before |
| `Runs.RunsAreLegal` | operator/internal/controller/aiworkload/aiworkload_controller.go:151-227 | every run from any fresh object, with any user edits, is a chain of legal versions |
| `Runs.OperationStageLegal` | operator/internal/controller/aiworkload/operations.go:184-238 | however the three finishing writes end, what they leave is legal |
| `Writes.UpdatesBecome` | operator/internal/controller/aiworkload/aiworkload_controller.go:151-195 | a write is stored if and only if the copy is current and nobody refuses it or gets there first, and the copy learns of it if and only if it is answered; an update stores everything but the status, a status update the status alone |
| `Writes.ShownIs` | operator/internal/controller/aiworkload/operations.go:33-47 | every status write shows the journal while there is one; without one it leaves the shown operation, unless that is over and the spec asks for something else |
| `Writes.NamesAreFilledIn` | operator/internal/controller/aiworkload/blueprint.go:110-122 | a workload without bundle names gets one for each component of the blueprint in a write of its own, and nothing is rendered in that pass |
| `Writes.NamesComeBack` | operator/internal/controller/aiworkload/blueprint.go:118-122 | such a pass is requeued when the names were taken and an error otherwise |
| `Writes.NothingToRender` | operator/internal/controller/aiworkload/blueprint.go:91-95 | a workload without a blueprint keeps its status |
| `Writes.StatusIsStored` | operator/internal/controller/aiworkload/aiworkload_controller.go:181-227 | any other pass without a request stores its status, whatever its result, and goes on to the operation only if it settled |
| `CrashSafety.TerminalJournalIsFinal` | operator/internal/controller/aiworkload/operations.go:152-156 | a stored terminal operation is never decided again; it is cleared only when the stored status shows it, and every status write on top of it shows exactly it |
| `CrashSafety.DecisionIsNeverLost` | operator/internal/controller/aiworkload/operations.go:219-236 | over any stretch of a run without a new trigger, a decided operation is in the journal or shown in the status, unless the spec asked for something else since |
| `CrashSafety.QuietPassFinishes` | operator/internal/controller/aiworkload/operations.go:184-238 | one pass in which nothing goes wrong ends every terminal journal whichever write an earlier pass got to, and decides every operation past its deadline |
| `Triggers.TriggersAreAtomic` | operator/internal/controller/aiworkload/operations.go:130-146 | of a request either nothing is stored, or spec version, journal, identity and removal together |
| `Triggers.HandledIdIsInjective` | operator/internal/controller/aiworkload/journal.go:39 | identities are equal exactly when type and nonce are |
| `Triggers.SplitRequestReadsBack` | operator/internal/controller/aiworkload/operations.go:57-61 | a request nonce&#124;target reads back as it was written |
| `Triggers.HandledIsTheNewest` | operator/internal/controller/aiworkload/journal.go:51-60 | in every run the handled list is the newest eight identities accepted so far, or all of them |
| `Triggers.HandledHasNoRepeats` | operator/internal/controller/aiworkload/journal.go:51-60 | in every run the handled list has no identity twice and at most eight |
| `Triggers.AnsweredAtMostOnceInEight` | operator/internal/controller/aiworkload/operations.go:53-98 | an identity is answered again only after eight others were accepted in between |
| `Triggers.RecordedAsLookedUp` | operator/internal/controller/aiworkload/operations.go:62-73 | a request is recorded under the identity it is looked up under if and only if it is not an upgrade to the version the spec has |
| `Triggers.RequestIsConsumed` | operator/internal/controller/aiworkload/operations.go:125 | the answered request is gone afterwards if and only if it is not an upgrade to the version the spec has; then the retry request goes in its place |
| `Triggers.AnsweredInKind` | operator/internal/controller/aiworkload/operations.go:53-98 | an upgrade request for the version the spec has is the one request answered by an operation of another type |
| `Triggers.SameVersionUpgradeStays` | operator/internal/controller/aiworkload/operations.go:70-72 | such a request is answered by a retry and will be answered the same way again |
| `Triggers.SameVersionUpgradeStarves` | operator/internal/controller/aiworkload/operations.go:70-72 | in every run, until a user edits the object, every further stored version is one more retry, the epoch grows by one with each and no status is written |
| `Triggers.EpochCountsRetries` | operator/internal/controller/aiworkload/operations.go:118-126 | in every run the epoch is the number of retries started |
| `Triggers.EpochsAreOrdered` | operator/internal/controller/aiworkload/blueprint.go:267-276 | the epoch never falls, and a later retry's is larger than an earlier one's |
| `Requests.EveryRequestReads` | operator/internal/controller/aiworkload/operations.go:57-61 | every request text reads as exactly one nonce and target |
| `Requests.UpgradeStarts` | operator/internal/controller/aiworkload/operations.go:57-73 | an upgrade request for another version that was not handled: spec version and journal target are the requested one, with that nonce and no expected digest, and nothing but the bookkeeping changes besides |
| `Requests.SameVersionRetries` | operator/internal/controller/aiworkload/operations.go:70-72 | for the version the spec has it is a retry under the same nonce |
| `Requests.RollbackStarts` | operator/internal/controller/aiworkload/operations.go:76-87 | a rollback takes version and digest of the record exactly when there is one and it differs from the spec's version, and is put aside otherwise |
| `Requests.RetryStarts` | operator/internal/controller/aiworkload/operations.go:118-126 | a retry keeps its nonce and raises the epoch |
| `Requests.NothingStarts` | operator/internal/controller/aiworkload/operations.go:53-98 | nothing starts if and only if there is no request or the first one there is was handled |
| `Requests.OperationWasAsked` | operator/internal/controller/aiworkload/operations.go:53-126 | in every run an operation in flight is what some request asked for when it was started, and the spec stored then was at its target |
| `Success.SuccessIsEarned` | operator/internal/controller/aiworkload/operations.go:157-179 | a success is judged by a settled status pass just before, on a spec that still has the intent; upgrade and rollback have the target deployed, a rollback with the expected digest, a retry is Running and synced to its epoch |
| `Success.OperationHasAStart` | operator/internal/controller/aiworkload/operations.go:101-126 | every operation in flight was started by a trigger and is the one it started |
| `Success.SuccessWasCertified` | operator/internal/controller/aiworkload/operations.go:190-193 | an upgrade or rollback whose target was not deployed when it started was certified at the target between start and success |
| `Success.RetrySuccessMeansUp` | operator/internal/controller/aiworkload/operations.go:195-197 | the pass before a successful retry found every enabled component up on every target as just rendered |
| `Success.RetryWaitsForTheList` | operator/internal/controller/aiworkload/operations.go:249-264 | a retry's verdict waits for a HelmOp name to be synced, whatever the answers, if and only if the name is in fleetBundleNames |
| `Success.UnlistedMakesNoDifference` | operator/internal/controller/aiworkload/operations.go:249-264 | what becomes of a HelmOp that is not listed changes no verdict |
| `Success.NamesStay` | operator/internal/controller/aiworkload/blueprint.go:110-122 | once filled in, the list stays through every change of version until a user edits the object |
| `Success.RetrySyncsTheFirstBlueprint` | operator/internal/controller/aiworkload/blueprint.go:110-122 | so a successful retry has synced an enabled component if the blueprint the list was made from has one of its bundle name, and did not ask about any other |
| `Success.RollbackIsBornDeployed` | operator/internal/controller/aiworkload/operations.go:86 | a rollback's target is deployed from its start: the first settled pass succeeds exactly when the record still has the digest taken, so always when it certifies nothing |
| `Failures.VerdictsHaveCauses` | operator/internal/controller/aiworkload/operations.go:152-180 | superseded if and only if the intent moved; every failure has its cause; nothing fails that could succeed; only state and reason change |
| `Failures.OutcomeIs` | operator/internal/controller/aiworkload/operations.go:152-204 | the decision on the status fields: a spec that moved on, then drift, then the target on record (for a retry, Running and synced since), then a failed cell, then half an hour |
| `Failures.FailureIsCurrent` | operator/internal/controller/aiworkload/blueprint.go:218-247 | after a pass that builds a matrix, a cell is failed if and only if some desired HelmOp fails under the render of that very pass |
| `Failures.CellsOfPass` | operator/internal/controller/aiworkload/blueprint.go:92-247 | any other pass leaves the cells as they were; a settled pass builds a matrix if and only if it gets through the render loop |
| `Failures.OldCellsStillFail` | operator/internal/controller/aiworkload/operations.go:198-204 | a pass that settles without a matrix fails an uncertified operation by the cells of an earlier one |
| `Failures.GoneBlueprintFails` | operator/internal/controller/aiworkload/operations.go:198-204 | so an upgrade whose blueprint is not there fails by an old cell on the first look, with nothing desired at all |
| `Failures.FailureIsOfTheLastMatrix` | operator/internal/controller/aiworkload/operations.go:198-204 | in every run a failure by a failed cell is about the render of the last pass that built a matrix, and that is the deciding pass if and only if the blueprint was there and every enabled component was rendered |
| `Failures.FailedCellMeansFailsNow` | operator/internal/controller/aiworkload/blueprint.go:1506-1624 | the matrix has a failed cell if and only if some key fails to apply what it is asked for now or its HelmOp is rejected anew |
| `Progress.RolledOutMeansDone` | operator/internal/controller/aiworkload/operations.go:184-238 | an upgrade or rollback in flight whose desired HelmOps are all rolled out is finished by one undisturbed pass: target and digest on record, Succeeded shown, journal gone; a rollback that expects another digest is Failed |
| `Progress.SyncedMeansDone` | operator/internal/controller/aiworkload/operations.go:194-197 | a retry is finished likewise when the workload is Running and everything listed was synced to its epoch |
| `Progress.DeadlineDecides` | operator/internal/controller/aiworkload/operations.go:175-179 | an operation neither through nor failed stays in flight for half an hour and is then Failed for that |
| `Rendering.SettledRunningMeansUp` | operator/internal/controller/aiworkload/blueprint.go:1506-1642 | a settled pass that says Running found, for each enabled component and target, a Bundle with this render's digest at its observed generation and a BundleDeployment that applied what it was asked and is up |
| `Rendering.DigestsAreTheRenders` | operator/internal/controller/aiworkload/blueprint.go:197-198 | with distinct bundle names each HelmOp is looked for with the digest of its own component's render |
| `Rendering.DeployedChangesOnlyByCertifying` | operator/internal/controller/aiworkload/certify.go:82-119 | the deployed record changes only in a pass that certifies every desired HelmOp, to the spec's version and exactly their digest |
| `Rendering.CertifyingReachesEveryPair` | operator/internal/controller/aiworkload/certify.go:30-41 | a certifying pass leaves out no enabled component and no target |
| `Rendering.DigestIgnoresReleaseName` | operator/internal/controller/aiworkload/digest.go:65-82 | the render digest tells components apart by everything but the release name |
| `Rendering.DigestIsOf` | operator/internal/controller/aiworkload/digest.go:66-91 | the digest of a component, input by input |
| `StatusPass.FleetPassIs` | operator/internal/controller/aiworkload/blueprint.go:218-262 | what a pass that builds a matrix leaves: the record says the spec's version and the digest of the desired HelmOps if all are rolled out and is unchanged if not; the phase is the guarded verdict on the cells; settled if and only if every read up to the first HelmOp not rolled out was answered and the customisation could be told |
| `StatusPass.OtherPasses` | operator/internal/controller/aiworkload/blueprint.go:91-262 | what any other pass leaves: an error for what cannot be read, Failed and settled for a blueprint that is gone, and the end of the render loop |
| `StatusPass.ThroughMeans` | operator/internal/controller/aiworkload/blueprint.go:131-216 | a pass gets through the loop if and only if every enabled component was rendered and its HelmOps could be read |
| `StatusPass.LoopEnds` | operator/internal/controller/aiworkload/blueprint.go:142-193 | the loop ends at the first component that is not fine, settled for a chart that is too large, looked at again for what may come right, an error otherwise, and shows Failed under the grace period |
| `StatusPass.DesiredRefs` | operator/internal/controller/aiworkload/blueprint.go:296-330 | a HelmOp is desired if and only if a component that is not disabled is targeted there |
| `StatusPass.EnabledAre` | operator/internal/controller/aiworkload/blueprint.go:296-330 | the enabled components are those not disabled, in the blueprint's order |
| `StatusPass.EveryHelmOpIsObserved` | operator/internal/controller/aiworkload/blueprint.go:194-215 | rendering observes each HelmOp of the component that is there, local and downstream, at this digest and epoch, and nothing else |
| `StatusPass.PatchedOrder` | operator/internal/controller/aiworkload/blueprint.go:194-215 | the order HelmOps are looked at in: by namespace under GitOps, else the local one first |
| `Certify.MatrixCellPhase` | operator/internal/controller/aiworkload/certify.go:46-64 | Running exactly when the parent is current and the BundleDeployment applied what it should and is up; Failed only under the current render |
| `Certify.CertifyKeysMeaning` | operator/internal/controller/aiworkload/certify.go:92-104 | the loop certifies if and only if every key is certified |
| `Certify.CertificationCoversEverything` | operator/internal/controller/aiworkload/certify.go:82-119 | the record changes exactly when there is something to deploy, all of it is certified and the record does not say so yet |
| `Certify.CertificationForgetsOrder` | operator/internal/controller/aiworkload/certify.go:82-119 | the outcome does not depend on the order of components or targets |
| `Certify.CertifiedMeansRolledOut` | operator/internal/controller/aiworkload/certify.go:30-41 | a certified pair has a current Bundle, ready on all the clusters its HelmOp covers |
| `Matrix.BuildComponentMatrix` | operator/internal/controller/aiworkload/blueprint.go:1506-1624 | the loops over keys, deployments and expected clusters compute the matrix |
| `Matrix.RunningMeansUp` | operator/internal/controller/aiworkload/blueprint.go:1636-1642 | Running if and only if there is a key and every key is up |
| `Matrix.RunningCoversEveryPair` | operator/internal/controller/aiworkload/blueprint.go:1506-1642 | the same for each component and target |
| `Matrix.ExpectedClusterHasCell` | operator/internal/controller/aiworkload/blueprint.go:1559-1614 | every expected cluster has a cell, whatever Fleet has created |
| `Matrix.CellsAre` | operator/internal/controller/aiworkload/blueprint.go:1506-1624 | there is a matrix if and only if every key can be told, and its cells, field by field, are one for every BundleDeployment of a known cluster and one for every expected cluster without one |
| `Baselines.UpsertRenderBaseline` | operator/internal/controller/aiworkload/certify.go:178-190 | the in-place replacement loop |
| `Baselines.PruneRenderBaselines` | operator/internal/controller/aiworkload/operations.go:280-289 | the filter loop, sorted by UID |
| `Baselines.BaselineIsFirstObservation` | operator/internal/controller/aiworkload/certify.go:178-190 | after any upserts and prunes there is at most one baseline per HelmOp, the first observation of its current unbroken attempt, and none if there is no such attempt |
| `Baselines.RejectionMustBeNew` | operator/internal/controller/aiworkload/certify.go:155-169 | a rejection fails the attempt if and only if the attempt's first observation saw another condition |
| `BaselineRuns.PassIsSteps` | operator/internal/controller/aiworkload/blueprint.go:131-226 | what a status pass does to the baselines is a sequence of observations, those that survive its publications, and at most one prune |
| `BaselineRuns.ObservationsSurvive` | operator/internal/controller/aiworkload/blueprint.go:1147-1173 | an observation survives its pass if and only if no component is published after it in that pass, or nothing was stored |
| `BaselineRuns.StoredBaselinesAreTheSteps` | operator/internal/controller/aiworkload/blueprint.go:131-226 | in every run the stored baselines are what the surviving observations and the prunes of the stored passes add up to |
| `BaselineRuns.RejectionsInRunsAreNew` | operator/internal/controller/aiworkload/certify.go:155-169 | in every run a rejection counts against the current attempt if and only if the first surviving observation of the attempt saw another condition |
| `BaselineRuns.PublicationHidesRejection` | operator/internal/controller/aiworkload/blueprint.go:1147-1173 | a rejection after a pass that saw the HelmOp at its new generation fails the attempt if and only if that pass published nothing after it saw it |
| `Phases.AggregateClusterStatuses` | operator/internal/controller/aiworkload/blueprint.go:1177-1207 | the map-building loop gives the aggregate |
| `Phases.AggregateIsUnique` | operator/internal/controller/aiworkload/blueprint.go:1177-1207 | one sorted entry per cluster with its worst phase: there is only one such list |
| `Phases.AggregateForgetsCellOrder` | operator/internal/controller/aiworkload/blueprint.go:1177-1238 | the entries and phases do not depend on the order of the cells |
| `Phases.WorstOfMeaning` | operator/internal/controller/aiworkload/blueprint.go:1223-1238 | the folded phase of a cluster is the worst any of its cells has |
| `Phases.DerivePhase` | operator/internal/controller/aiworkload/aiworkload_controller.go:651-680 | the counting loop computes the verdict in words |
| `Phases.AggregationPreservesPhase` | operator/internal/controller/aiworkload/blueprint.go:1636-1642 | derived from clusters or from cells, Running agrees both ways, and every verdict that is not mixed is the same |
| `Phases.GraceOnlyDelaysFailure` | operator/internal/controller/aiworkload/aiworkload_controller.go:689-700 | the grace period only turns Failed into Pending, only within five minutes and only before anything else was shown |
| `Keys.DesiredHelmOpKeys` | operator/internal/controller/aiworkload/keys.go:29-67 | the counting and appending loops compute the desired keys |
| `Keys.DesiredKeysCover` | operator/internal/controller/aiworkload/keys.go:29-67 | every component and target has a key that covers the target |
| `Keys.DesiredKeyHasComponent` | operator/internal/controller/aiworkload/keys.go:29-67 | every key belongs to a component and expects at least one cluster |
| `Keys.KeyFieldsAre` | operator/internal/controller/aiworkload/keys.go:29-67 | what a key says of its component: bundle name, release name, namespace |
| `Keys.ExpectedClustersAddUp` | operator/internal/controller/aiworkload/keys.go:35-42 | a component's expected clusters add up to the distinct targets if and only if no downstream cluster is listed twice |
| `Keys.DesiredKeysForgetOrder` | operator/internal/controller/aiworkload/keys.go:29-67 | the keys do not depend on the order of components or targets |
| `Keys.BundleNameValid` | operator/internal/controller/aiworkload/keys.go:21-23 | when a bundle name is a label: unless the chart's slug is empty and the rest fits |
| `Workload.IntentDigestIsCanonical` | operator/internal/controller/aiworkload/digest.go:42-61 | equal exactly for equal blueprint, version, namespace, strategy and the same clusters in any order |
| `Workload.RenderDigestIsCanonical` | operator/internal/controller/aiworkload/digest.go:78-82 | equal exactly for equal inputs with the same targets in any order |
| `Workload.AggregateDigestIsCanonical` | operator/internal/controller/aiworkload/digest.go:93-103 | with one entry per HelmOp, equal exactly for the same entries in any order |
| `PullSecrets.MergeImagePullSecrets` | operator/internal/controller/aiworkload/pullsecrets.go:223-238 | the loop computes the merge and reports a change exactly when a name was missing |
| `PullSecrets.MergeSettles` | operator/internal/controller/aiworkload/pullsecrets.go:223-238 | the merge keeps what was there in place, is a union, and a second one changes nothing |
| `PodRestarter.Restarter.RestartImagePullBackOffPods` | operator/internal/controller/aiworkload/pullsecrets.go:273-314 | the pass over the listed pods, with its account cache and its counts, ending at the first error |
| `PodRestarter.Restarter.RecreateForDeliveredSecret` | operator/internal/controller/aiworkload/pullsecrets.go:330-383 | the uncounted path, check by check |
| `PodRestarter.Restarter.BounceHelmLabelledPod` | operator/internal/controller/aiworkload/pullsecrets.go:387-440 | the counted path: counter, delete, UID, each after the answer to the one before |
| `PodRestarter.Restarter.PodMisses` | operator/internal/controller/aiworkload/pullsecrets.go:528-546 | true exactly when the account carries a delivered secret the pod lacks |
| `PodRestarter.Restarter.PullSecretsFromAccount` | operator/internal/controller/aiworkload/pullsecrets.go:551-562 | true exactly when the account accounts for every secret of the pod |
| `BounceBudget.BounceChanges` | operator/internal/controller/aiworkload/pullsecrets.go:418-433 | a counted check raises the counter by one before at most one pod goes |
| `BounceBudget.GonePodsCountAgain` | operator/internal/controller/aiworkload/pullsecrets.go:405-432 | over any run a remembered pod that a list still shows is counted again if and only if the last pod its controller remembers is another one, with the controller in scope and budget left |
| `BounceBudget.TwoPodsSpendThree` | operator/internal/controller/aiworkload/pullsecrets.go:405-432 | two passes over one list of two pods spend all three units of the budget, the last on a pod that is long gone |
| `BounceBudget.FailedDeletesAreRetried` | operator/internal/controller/aiworkload/pullsecrets.go:424-427 | a pod whose delete failed is tried again for as long as the budget lasts |
| `BounceBudget.BudgetHolds` | operator/internal/controller/aiworkload/pullsecrets.go:387-440 | in every run, for each controller object, counted deletions <= its counter <= 3 |
| `BounceBudget.RecreationShrinks` | operator/internal/controller/aiworkload/pullsecrets.go:330-383 | a recreation lowers the number of lacking pods by one if and only if the pod that has the name now lacks a secret; with a current list it always does |
| `BounceBudget.StaleListHitsTheReplacement` | operator/internal/controller/aiworkload/pullsecrets.go:372 | a list that is behind hits the replacement pod of the same name and gains nothing |
| `BounceBudget.RecreationsAreBounded` | operator/internal/controller/aiworkload/pullsecrets.go:273-383 | in every run with current lists, recreations never exceed the lacking pods at the start |
| `RestartRules.CheckIs` | operator/internal/controller/aiworkload/pullsecrets.go:273-300 | which check a pod gets: none, the counted one, or the uncounted one |
| `RestartRules.UncountedIs` | operator/internal/controller/aiworkload/pullsecrets.go:330-383 | the uncounted check deletes exactly the pods that qualify and are not at work, as far as the API goes along, and answers pending exactly for those that are |
| `RestartRules.CountedIs` | operator/internal/controller/aiworkload/pullsecrets.go:387-440 | the counted check acts exactly when the controller is in scope, does not remember the pod and has budget left: counter, pod, UID, each only after the one before |
| `RestartRules.PodsAtWorkAreSpared` | operator/internal/controller/aiworkload/pullsecrets.go:366-371 | a pass deletes no pod but one listed with a failing pull or Pending with nothing started |
| `RestartRules.PassTellsWhatIsGone` | operator/internal/controller/aiworkload/pullsecrets.go:273-312 | without an error every listed pod was checked and the pods reported restarted are those that are gone |
| `RestartRules.ErrorsEndThePass` | operator/internal/controller/aiworkload/pullsecrets.go:303-305 | an error ends the pass where it is met |
| `RestartRules.PendingAreLeftForLater` | operator/internal/controller/aiworkload/pullsecrets.go:306-311 | the pods reported pending are those left for later |
| `HelmClients.HelmClient.EnsureRelease` | operator/internal/infra/helm/action.go:495-609 | the whole pass: decision, label drift, memo, render and compare, write, with memo, cache and gauge updated in place |
| `HelmClients.HelmClient.LoadChart` | operator/internal/infra/helm/tls.go:103-130 | from the cache when it has the chart, else counted, pulled and kept; a pull that fails is counted, too |
| `HelmClients.HelmClient.LatchConvergence` | operator/internal/infra/helm/convergence.go:139-157 | a verdict is recorded only when both fingerprints exist |
| `HelmClients.HelmClient.DeleteRelease` | operator/internal/infra/helm/action.go:264-296 | the verdict and the gauge go even when the uninstall fails |
| `HelmRelease.FindLabelDrift` | operator/internal/infra/helm/action.go:460-470 | the loop finds a requested label that is missing or different if there is one |
| `HelmRelease.FingerprintMeaning` | operator/internal/infra/helm/convergence.go:171-213 | the memo calls two specs equal exactly when they pull the same chart and valuesEqual says so of their values |
| `Convergence.DeployedIndexMeaning` | operator/internal/infra/helm/action.go:345-354 | the deployed revision is the newest with that status |
| `Convergence.PendingIsLeftAlone` | operator/internal/infra/helm/action.go:422-426 | over a newest revision mid-operation nothing is written, pulled or changed |
| `Convergence.FailedOnTopDecidesNothing` | operator/internal/infra/helm/action.go:411-441 | attempts on top that never reached the cluster change no decision, and are never taken for a deployed revision |
| `Convergence.GaugeTellsTheTruth` | operator/internal/infra/helm/action.go:534-606 | after a pass that ends well without a write the gauge says whether the running revision disagrees with the spec |
| `Convergence.OneGoodWriteIsTheLast` | operator/internal/infra/helm/action.go:495-609 | after one successful install or upgrade no later pass with that spec writes, whatever reads and pulls fail in between |
| `Convergence.AppliedStaysQuiet` | operator/internal/infra/helm/action.go:495-609 | the state such a write leaves is kept by every further pass |
| `Convergence.WhenAppliedWritesAgain` | operator/internal/infra/helm/action.go:583-608 | such a state is written over if and only if the manifest could not be read, the memo did not hold and the chart renders something |
| `Convergence.VerdictsAreProven` | operator/internal/infra/helm/convergence.go:139-157 | in every run the verdict held was proven by some pass of the run |
| `Convergence.LoadedWasPulled` | operator/internal/infra/helm/chart_cache.go:101-119 | a chart in use was pulled under its key at most ten minutes before |
| `Convergence.QuietPassIsJustified` | operator/internal/infra/helm/action.go:495-609 | in every run, with other writers, a quiet pass has the spec matched, or its manifest rendered just now, or rendered at most half an hour ago for the same revision number, chart, version and values |
| `ReleaseWrites.NothingStored` | operator/internal/infra/helm/action.go:505-524 | with nothing stored a readable pass installs revision 1, field by field, as far as Helm lets it |
| `ReleaseWrites.StoredRelease` | operator/internal/infra/helm/action.go:505-609 | how every pass over a stored release ends, and what an upgrade appends: number, status, chart, values carried forward, labels added, manifest |
| `ReleaseWrites.WritesExactlyWhen` | operator/internal/infra/helm/action.go:495-609 | a pass writes if and only if it has a reason to, the chart can be had and Helm takes the write |
| `ReleaseWrites.LoadIs` | operator/internal/infra/helm/tls.go:103-130 | a kept chart is used and nothing asked of the registry; any other is asked for once and kept, unless the source has credentials |
| `ReleaseWrites.MemoIs` | operator/internal/infra/helm/convergence.go:115-213 | a verdict goes for another spec and revision if and only if they pull and render alike and half an hour has not gone by |
| `ReleaseWrites.DeletionForgets` | operator/internal/infra/helm/action.go:264-296 | a deletion leaves no verdict and no gauge behind |
| `ReleaseWrites.MemoSavesPulls` | operator/internal/infra/helm/convergence.go:115-157 | after a render that changed nothing, passes with that spec ask the registry for nothing for half an hour |
| `ChartCache.Cache.CachedChart` | operator/internal/infra/helm/chart_cache.go:101-119 | a hit, or a miss that drops what it cannot use |
| `ChartCache.Cache.CacheChart` | operator/internal/infra/helm/chart_cache.go:125-138 | stores a non-empty archive and prunes what has expired |
| `ChartCache.CacheKeyIdentifiesSource` | operator/internal/infra/helm/chart_cache.go:80-85 | NUL-free sources share a key exactly when they are the same and carry neither credentials nor trust |
| `ChartCache.CacheRefinesPulls` | operator/internal/infra/helm/chart_cache.go:101-138 | under any interleaving a lookup answers exactly the last pull of its key if at most ten minutes old, so pruning never turns a hit into a miss |
| `ExtensionController.Reconciler.ReconcileRequest` | operator/internal/controller/installaiextension/installaiextension_controller.go:268-353 | the whole pass on the stored object, interrupted or not |
| `ExtensionController.Reconciler.Reconcile` | operator/internal/controller/installaiextension/installaiextension_controller.go:382-458 | phase, early failures, source kind, success |
| `ExtensionController.Reconciler.ReconcileHelmSource` | operator/internal/controller/installaiextension/installaiextension_controller.go:611-689 | release, rollout, service, repository, extension chart |
| `ExtensionController.Reconciler.ReconcileGitSource` | operator/internal/controller/installaiextension/installaiextension_controller.go:692-744 | repository, extension chart, rollout |
| `ExtensionController.Reconciler.AwaitReleaseRunning` | operator/internal/controller/installaiextension/installaiextension_controller.go:1055-1126 | restart on a new revision, then wait or clear |
| `ExtensionController.Reconciler.RestartReadinessClocks` | operator/internal/controller/installaiextension/installaiextension_controller.go:1149-1166 | both readiness clocks are dropped at another revision than the recorded one, and at none else |
| `ExtensionController.Reconciler.AwaitReadiness` | operator/internal/controller/installaiextension/installaiextension_controller.go:1185-1215 | stamp, wait, or fail past the bound; Ready is left alone while waiting |
| `ExtensionController.Reconciler.HandlePendingReleaseMarker` | operator/internal/controller/installaiextension/installaiextension_controller.go:1247-1306 | stamp, wait, fail past fifteen minutes, or clear |
| `ExtensionController.Reconciler.ClearMarkers` | operator/internal/controller/installaiextension/installaiextension_controller.go:1331-1347 | one write when a live marker was cleared, none otherwise |
| `BoundedWaits.StampIsKept` | operator/internal/controller/installaiextension/installaiextension_controller.go:1055-1436 | a live stamp outlasts a pass if and only if nothing the pass finds resolves that wait, whatever the other waits, failing writes and interruptions do; for the extension's release that is so unless the pass finds it settled or never gets to it without being held up |
| `BoundedWaits.UnaskedStampStays` | operator/internal/controller/installaiextension/installaiextension_controller.go:326-344 | in a pass that never looks at the extension's release its stamp survives if and only if the pass is interrupted, ends in an error, cannot write at its end, finds the first release pending, or waits for readiness inside the bound over an older reason that says pending |
| `BoundedWaits.ErrorsAreFailures` | operator/internal/controller/installaiextension/installaiextension_controller.go:611-744 | a pass ends in an error if and only if a read or a write it depends on failed |
| `BoundedWaits.WaitingPass` | operator/internal/controller/installaiextension/installaiextension_controller.go:1185-1306 | a waiting pass is Failed if and only if its bound is exceeded, and keeps or sets the stamp |
| `BoundedWaits.FirstStampStays` | operator/internal/controller/installaiextension/installaiextension_controller.go:1401-1436 | from the first waiting pass on, for as long as no pass is excused in that sense, the stamp is the time of the first |
| `BoundedWaits.WaitsAreBounded` | operator/internal/controller/installaiextension/installaiextension_controller.go:1185-1306 | so a later waiting pass is Failed if and only if more than the bound has gone by since the first, to the second, and asks to come back |
| `BoundedWaits.NewRolloutStartsOver` | operator/internal/controller/installaiextension/installaiextension_controller.go:1149-1166 | another revision than the recorded one starts both readiness waits over, and is recorded |
| `PassEnds.StagesSay` | operator/internal/controller/installaiextension/installaiextension_controller.go:382-458 | for every pass: Installed if and only if everything is there, Failed if and only if something could not be ensured or is over its bound, and the Ready condition and the next look that go with it |
| `PassEnds.StartIs` | operator/internal/controller/installaiextension/installaiextension_controller.go:1401-1423 | a stamp that does not parse or lies in the future is no start of a wait |
| `PassEnds.RevisionIs` | operator/internal/controller/installaiextension/installaiextension_controller.go:1075-1080 | the revision recorded is the release's as soon as a pass sees it and the clocks could be restarted |
| `PassEnds.PassStores` | operator/internal/controller/installaiextension/installaiextension_controller.go:268-353 | what of a pass is stored, interrupted or not, persisted or not |
| `Backoff.IntervalIsClamped` | operator/internal/controller/installaiextension/installaiextension_controller.go:994-1009 | between one and fifteen minutes, the minimum for a missing or future stamp, and a doubling in between |
| `Backoff.AttemptsAreSpaced` | operator/internal/controller/installaiextension/installaiextension_controller.go:974-1009 | attempts come at 0, 60, 120, 240, 480 and 960 seconds at the earliest and then every 900 |
| `Backoff.AttemptsAreBounded` | operator/internal/controller/installaiextension/installaiextension_controller.go:974-1009 | at most 6 + (T - 960)/900 attempts within T >= 960 seconds |
| `Backoff.BoundIsReached` | operator/internal/controller/installaiextension/installaiextension_controller.go:974-1009 | coming back as soon as asked reaches the bound |
| `CatalogSync.SyncNVAIE` | operator/hack/generate-catalog/merge.go:186-249 | index, preserve, append, deduplicate, sort |
| `CatalogSync.IndexNGC` | operator/hack/generate-catalog/merge.go:126-154 | the loop over the charts: every chart by key, supported ones listed or left out |
| `CatalogSync.PreserveExisting` | operator/hack/generate-catalog/merge.go:219-240 | the loop over the existing entries: replaced, kept, rebuilt or removed with a reason |
| `CatalogSync.DedupeBySlug` | operator/hack/generate-catalog/merge.go:255-269 | the loop with its position map |
| `CatalogRefresh.DedupeKeepsWinners` | operator/hack/generate-catalog/merge.go:255-281 | one entry per slug is left and it is the first of the most preferred |
| `CatalogRefresh.PreferIsStrict` | operator/hack/generate-catalog/merge.go:275-281 | preference is a strict order that only repository URLs decide |
| `CatalogRefresh.WinnerIsBest` | operator/hack/generate-catalog/merge.go:255-281 | no other entry of its slug is preferred over a winner |
| `CatalogRefresh.NimNvidiaWins` | operator/hack/generate-catalog/merge.go:271-293 | a slug's entry comes from nim/nvidia if any does, and among equals from the smallest URL |
| `CatalogRefresh.SyncIsAFixedPoint` | operator/hack/generate-catalog/merge.go:186-249 | refreshing a result against the same charts and overrides gives it back and removes nothing |
| `CatalogRefresh.SyncForgetsResourceOrder` | operator/hack/generate-catalog/merge.go:126-249 | any order of the charts gives the same library and reasons, or the same error |
| `CatalogRefresh.KeptIsSettled` | operator/hack/generate-catalog/merge.go:160-174 | a rebuilt entry keeps its slug, has no chip, and is rebuilt to itself |
| `CatalogRefresh.BuiltKeepsKey` | operator/hack/generate-catalog/merge.go:107-117 | an entry leads back to the chart it was built from |
| `CatalogRefresh.ChipMeansSupported` | operator/hack/generate-catalog/merge.go:87-102 | an owned entry has the chip if and only if a supported chart of its name is on a deployable path |
| `CatalogRefresh.UnownedIsPreserved` | operator/hack/generate-catalog/merge.go:225-226 | an entry nobody generated and no supported chart claims stays as it was |
| `CatalogEntries.EntryIs` | operator/hack/generate-catalog/merge.go:87-102 | an entry for a chart, field by field: pinned fields win over derived ones, the chip says supported, ownership is set |
| `CatalogEntries.OnlyTheChipGoes` | operator/hack/generate-catalog/merge.go:63-77 | taking the chip away takes no other label away and keeps their order |
| `CatalogEntries.KeyIs` | operator/hack/generate-catalog/derive.go:76-78 | a chart is identified by organisation, team and name |
| `CatalogEntries.OwnedFateIs` | operator/hack/generate-catalog/merge.go:160-174 | what becomes of a generated entry: rebuilt without the chip, removed for one of two reasons, or an error |
| `CatalogEntries.LibraryIs` | operator/hack/generate-catalog/merge.go:186-249 | an entry is in the refreshed library if and only if it is the best offer of the supported charts for its slug, or nobody offers and it stands for an existing one; one per slug, in order |
| `CatalogEntries.FailsExactlyWhen` | operator/hack/generate-catalog/merge.go:186-249 | the refresh fails if and only if an override that is needed cannot be read or an unclaimed entry cannot be told or built |
| `CatalogEntries.ReasonIs` | operator/hack/generate-catalog/merge.go:219-240 | a slug is reported removed, with its reason, if and only if nobody offers it and its own chart is gone |
| `CatalogEntries.PathsAre` | operator/internal/catalog/ngc_repos.go:119-132 | which repository paths can be installed from, which are excluded, which are undecided |
| `CatalogEntries.PathIs` | operator/hack/generate-catalog/merge.go:107-117 | a repository keeps its path however it is padded with blanks and closing slashes |
| `CatalogEntries.UndecidedAre` | operator/hack/generate-catalog/merge.go:145-148 | the supported charts on undecided paths are reported under their path |
| `CatalogReport.BuildReport` | operator/hack/generate-catalog/report.go:58-96 | the loops over list and maps give a report |
| `CatalogReport.ReportIsDetermined` | operator/hack/generate-catalog/report.go:58-96 | there is only one report, though maps have no order |
| `CatalogReport.ListsAreTheDifference` | operator/hack/generate-catalog/report.go:67-90 | added are the new slugs, removed the gone ones, the other two lists were there and still are |
| `CatalogReport.ReportConserves` | operator/hack/generate-catalog/report.go:58-96 | size after = size before + added - removed, no app is in two lists, every removal has one of the two reasons |
| `CatalogReport.SecondRunReportsNothing` | operator/hack/generate-catalog/report.go:58-96 | a second run reports no change of any app |
| `CatalogReport.ReportForgetsResourceOrder` | operator/hack/generate-catalog/report.go:58-96 | any order of the charts gives the same report |
| `Naming.SlugifyShape` | operator/internal/naming/naming.go:39-43 | a slug is empty or a label |
| `Naming.SlugifyIdempotent` | operator/internal/naming/naming.go:39-43 | a slug is its own slug |
| `Naming.Base36Length` | operator/internal/naming/naming.go:61 | a 32-bit value has one to seven digits in base 36 |
| `Naming.TruncateValid` | operator/internal/naming/naming.go:52-68 | when the truncated name is a label of at most the limit |
| `Naming.CapReleaseNameValid` | operator/internal/controller/aiworkload/blueprint.go:947-964 | when a capped release name is a label, and capping twice is capping once |
| `Naming.CapsAgree` | operator/internal/controller/aiworkload/blueprint.go:947-964 | when the two truncations agree at 53 |

## Left out

- Hashes are what they hash: two digests are equal exactly when their inputs are. The render digest as a label is cut to 63 hex digits in the source; the model compares whole digests.
- JSON and the other encodings. An annotation that does not decode reads as absent; strings are sequences of ASCII characters.
- Finalizers, deletion, App-sourced workloads, conditions other than the extension's Ready, observed generations, the Customized flag and events of AIWorkloads.
- Controller.Reconciler.Reconcile: leaves out deletion, the finalizer, the observed generation and the pull-secret stage.
- Controller.Reconciler.ReconcileBlueprintStatus: leaves out conditions, and of a GitOps publication what Controller.Reconciler.RenderComponents leaves out.
- Controller.Reconciler.RenderComponents: of a GitOps publication it has the effect on the copy's baselines. The hash annotation it writes and the version that write adds are not modelled; a publication that is refused or not answered is a render that failed.
- Git and chart fetching are answers a pass gets. A git-backed chart's digest is a fingerprint that also covers the commit and how the targets are split; the model gives every component the digest of a chart from a Helm repository.
- Cleanup of stale HelmOps and Bundles: it may fail, and what it removes is not modelled. The code does not guarantee that it completes across a crash.
- Users edit the spec and the request annotations. Nobody but the operator writes its own annotations or the status.
- One answer per object and stage of a pass: a matrix reads each Bundle once, certification once more.
- `sort.Slice` is modelled as a stable sort; the theorems that a list is determined assume distinct keys.
- Clusters whose identity cannot be resolved are skipped, as the source does, but how it resolves them is not modelled.
- The retry epoch is unbounded; int64 wrap-around is not modelled.
- CrashSafety.QuietPassFinishes: is about one pass. That such a pass comes is up to the environment.
- Success.RetrySuccessMeansUp: needs distinct bundle names among the enabled components and a blueprint workload that is not deployed by plain Helm, as the matrix does.
- The delivery of pull secrets, the accounts' withdrawal, the merging of deliveries and the shell version of the account merge.
- BounceBudget.BudgetHolds: assumes that nobody else writes the counter and that a new controller object starts without one.
- BounceBudget.RecreationsAreBounded: assumes current lists, stable accounts and templates, and pods admitted with their account's secrets; without current lists it is false.
- Helm itself: a write appends a revision with merged labels, carries values forward when it is given none, and supersedes the deployed revision on success. Parsing and rendering are functions. The "null" label that deletes a label is not used by the source and not modelled.
- Convergence.OneGoodWriteIsTheLast: assumes that the registry keeps answering with the same chart, that manifests can be read back and that nobody else writes the release.
- A pass over a release is under a lock, so passes do not interleave; the lock is not modelled.
- The clock is read a few times in a pass where the source reads it at each comparison.
- The extension controller's cleanup of renamed extensions and its UI ConfigMap are answers a pass gets.
- An override that pins `labels` writes through a slice all entries share (`merge.go:90`, `overrides.go:57`). In the model each entry has labels of its own.
- CatalogRefresh.SyncIsAFixedPoint: needs names without slashes, and organisation and team names without spaces; URL parsing is a prefix match on the NGC host, without ports, queries or escapes.
- Reading and writing the catalog file, its other library, and the check for unknown libraries.
- CatalogReport.ReportForgetsResourceOrder: needs distinct chart keys and resource IDs, which the fetch makes sure of for the IDs.
- Naming.TruncateValid: needs a limit of at least eight, as every caller has.
