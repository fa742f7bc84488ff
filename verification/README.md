# Paved: a verified model

Paved is a Kubernetes operator. A developer writes a ServiceClaim; the operator applies the objects its
tier requires, measures its error budget, freezes deploys when the budget is gone, reports objects it had
to put back, and takes everything down again when the claim is deleted. This project models the parts of
it that decide something over unbounded inputs or over whole runs, and proves what they promise.

`dafny verify dfyconfig.toml` checks everything. Each file holds one module.

| files | what they model |
|---|---|
| Numbers, Budget, Spending | exact budgets and thresholds: parsing, rationals, printing without rounding, the share left |
| PromQL, Alerts | the generated queries and alerts, with their meaning over recorded series |
| SloStatus, Conditions | what a reconcile learns about an SLO, and the one stored freeze bit |
| Truncate, Webhook, FreezeProtocol | the admission webhook, and its interleaving with the reconciler |
| ServerSideApply, Drift | server-side apply beside other field managers, and drift on one object |
| Builders, Readiness | the object list, keys and routing labels; StorageReady and Ready |
| World, Reconciler | one reconcile as a function of cluster and environment, and as imperative code proved equal to it |
| Passes, Reconciles, StatusWrites, Frame | what a pass of applies and a whole reconcile leave, report, write and never touch |
| Quiescence, Resting, Contention | when the work queue drains, where it ends, and when it never does |
| Runs | whole runs with failures, restarts and other writers: nothing is forgotten, drift follows history |
| Finalizer, Release | the finalizer protocol under every interleaving, and its progress |
| LinkStore | the shortlink service's store under concurrent adds and gets |

## What is assumed

- Server-side apply behaves as DECISIONS.md:420-421 relies on: another manager's write takes a path from
  the controller's entry exactly when it changes that path's value, and an apply that changes nothing
  leaves the entry as it is. An object is a map from leaf paths to values with one ownership entry per
  manager; times are in whole seconds, as the API stores them.
- Reconciles run one at a time, and the claim and namespace one reads are current when it reads them. The
  code reads both through the cache (internal/controller/serviceclaim_controller.go:108 and 254).
- In World a whole reconcile is one step; what fails in it, what each clock reads and what Prometheus, ACK
  and Argo Rollouts answer is arbitrary. Finalizer splits it into single requests, and
  `Release.FinalizeRefines` and `Release.HoldRefines` tie the two together; FreezeProtocol splits it at
  its status write, and `StatusWrites.FreezeProtocolRefined` ties it. `Drift.RacedEdits` covers edits
  between the read and the apply of one object.
- A failing apply of an object changes nothing, or takes effect with its response lost. A failing write of
  the finalizer, of the status, or of a namespace's deletion changes nothing.
- A watch event maps both the old and the new version of an object, and only objects carrying the
  managed-by label are cached and watched (cmd/main.go:75-90).
- Nobody else writes the claim's status, and adding a finalizer to a claim that is gone or being deleted
  fails. Finalizer assumes that nobody else removes the controller's finalizer; Release does not.
- In Runs the API server lets a new claim start without a status and not in deletion, raises the generation
  with every change of a spec, and takes no deletion back. A restart queues every claim and forgets timers.
- The standard library's big.Rat (SetString on plain decimals, FloatPrec, FloatString), strconv.Itoa and
  strings.TrimSpace are modelled by definition.
- A rounding of floats is any monotone function on the reals that fixes 0 and 1; results in exact
  arithmetic use the identity.

## Where the code does less than its documentation says

- ADR-010 says the controller's own writes never retrigger it. Two live claims of one name in different
  namespaces take the Namespace object from each other forever. `Contention.QuiescesIffNamesDistinct`
  gives the exact condition, `Contention.SomeStartNeverRests` an instance.
- ADR-015 says a correction shows in the controller's entry. An edit between the read and the apply, in
  the second the entry already carries, is put back without a report: `Drift.RacedEdits` says exactly
  when, for any number of edits, and `Drift.RacedEditCanBeMissed` gives an instance.
- A namespace the controller created, stripped of its managed-by label, looks gone, so the finalizer is
  released while it stays: `Finalizer.ReleaseOrphansIff`, `Finalizer.StrippedLabelOrphans`. ADR-010
  mentions only namespaces that never had the label.
- A namespace delete names no version, so a namespace handed to another claim after it was read is still
  deleted: `Finalizer.DeleteIsForItsClaim` says exactly when the namespace deleted is not the claim's,
  `Finalizer.RelabelledNamespaceIsDeleted` gives an instance.
- The Rollout's replica count survives reconciles unless the controller alone owns it, as it does after a
  move from the batch tier: `Frame.ReplicasKeptIff`, `Frame.TierChangeDropsReplicas`.
- ADR-015 says creating a claim's resources never counts as drift. Linking a running operator to AWS leaves
  claims in sync, so their new Role and Bucket are recorded as recreated:
  `StatusWrites.NewStorageIsRecordedAsRecreated`. An object of an in-sync claim that was not in its list
  before is recorded exactly when it is missing or the apply changes the controller's entry:
  `StatusWrites.DriftBetweenReconciles`.

## Model

Functions that only compute have no row; the lemma or method that says what they compute has one.

| member | source | states |
|---|---|---|
| Budget.PlainDecimalGrammar | internal/slo/budget.go:111-128 | plain decimals, defined by their parts, are exactly digits, or digits, a dot and digits: the language of the CRD's pattern |
| Budget.IsDecimal | internal/slo/budget.go:112-128 | the three-flag scanner accepts exactly the plain decimals |
| Budget.ErrorBudgetExact | internal/slo/budget.go:34-47 | an objective of any length is accepted exactly when it is a plain decimal of value in [90, 100); its budget is 1 - objective/100 in lowest terms, in (0, 1/10] |
| Budget.BudgetOfNinetyNinePointFive | internal/slo/budget.go:31-33 | the documented example: objective 99.5 leaves a budget of 1/200 |
| Budget.FloatStringRounds | internal/slo/budget.go:103-109 | printing any rational with a number of digits gives its sign and a plain decimal with exactly that many, the one nearest its size, halves up |
| Budget.FloatPrecMinimal | internal/slo/budget.go:103-109 | whatever finite expansion a rational has, the digit count found for it is exact and no longer |
| Budget.DecimalExact | internal/slo/budget.go:103-109 | for every rational, the 12-digit fallback is taken exactly when there is no finite expansion; otherwise the text reads back as the same rational and no decimal text for it has fewer fraction digits |
| Budget.ThresholdExact | internal/slo/alerts.go:74-80 | for every accepted objective and plain decimal burn rate the threshold avoids the fallback, denotes burnRate x (1 - objective/100) exactly, and is the shortest plain decimal that does |
| Budget.AnyThresholdExact | internal/slo/alerts.go:74-80 | for a burn rate of any value, however written: no fallback exactly when burnRate x budget has a finite expansion, as it has whenever the burn rate has; the text then denotes the product, in the fewest digits |
| Numbers.ItoaInjective | internal/controller/freeze.go:121-124 | decimal text determines the integer, so equal printed generations are equal generations |
| Numbers.UtoaCanonical | internal/slo/rules.go:145-156 | the decimal text printed for a number is the one text of digits without leading zeros that reads back as it |
| Spending.RemainingOrdered | internal/slo/budget.go:67-88 | under any monotone rounding that keeps the budget positive the share left lies in [0, 1] and a higher error ratio never leaves more |
| Spending.SpentIsZero | internal/slo/budget.go:67-88 | under any such rounding a ratio at or above the rounded budget leaves nothing |
| Spending.RemainingNaN | internal/slo/budget.go:67-88 | the share left is not-a-number exactly when the budget rounds to zero and no error was seen |
| Spending.ExactBounds | internal/slo/budget.go:67-88 | exactly: nothing is left iff max(ratio, 0) is at least the budget; less than 5% iff it is above 95% of the budget |
| Spending.SpentAndLeft | internal/slo/budget.go:67-88 | exactly: the share spent times the budget is max(ratio, 0), and spent and left add up to the whole until it is overspent and nothing is left |
| Spending.OneTimesThreshold | internal/slo/alerts.go:60-80 | the threshold printed for the 1x alert denotes the error budget itself |
| Conditions.FindUpsertAll | internal/controller/serviceclaim_controller.go:304-307 | after any list of merged updates the condition found of a kind is the last update of that kind, or the one stored before |
| Conditions.Merge | internal/controller/serviceclaim_controller.go:304-307 | the merge loop leaves, for every kind, the latest update or the stored condition |
| SloStatus.EvaluateSLO | internal/controller/slo_status.go:68-145 | filling the report step by step gives the report the branch-by-branch specification gives |
| SloStatus.FailsOpen | internal/controller/slo_status.go:61-145 | a report is measured exactly when there is a client, the spec is valid, no query failed and the window ratio is finite; only a measured report can say unhealthy or healthy, and an unmeasured one shows nothing |
| SloStatus.UnknownReasons | internal/controller/slo_status.go:68-131 | which of the four reasons an Unknown carries, by what was missing or failed, in order of precedence; an unhealthy or healthy report carries none of them |
| SloStatus.HealthExactly | internal/controller/slo_status.go:111-148 | exactly: a measured SLO is unhealthy iff its budget is gone or the hour has max(ratio, 0) at 14.4 budgets or more, unknown iff the hour's ratio is no number, and else healthy, with the reason of each |
| SloStatus.HealthRounded | internal/controller/slo_status.go:111-148 | under every monotone rounding that keeps the budget positive: worse ratios never turn unhealthy to healthy, 14.4 rounded budgets in the hour are always unhealthy, an hour without errors never is while budget is left |
| SloStatus.HealthWithoutBudget | internal/slo/budget.go:78-88 | a budget that rounds to zero is exhausted by any error in the window and burnt too fast by any in the hour, and healthy without errors |
| SloStatus.StoredStep | internal/controller/freeze.go:52-88 | one reconcile leaves deploys frozen exactly when its report found no budget, or they were frozen and it did not find 5% back |
| SloStatus.FreezeReasons | internal/controller/freeze.go:63-86 | each of the four reasons holds exactly when the budget is unmeasured, gone, coming back under a freeze, or measured with deploys free |
| SloStatus.FreezeIsHistory | internal/controller/freeze.go:52-88 | after any run of reports the one stored bit equals its history form: some report found no budget and none since found 5% back |
| SloStatus.IndecisiveReportsVanish | internal/controller/freeze.go:63-86 | deleting all unmeasured, invalid-spec and in-band reports from a run never changes whether it ends frozen |
| SloStatus.SameDecisiveSameFreeze | internal/controller/freeze.go:63-86 | two runs that agree on their decisive reports end alike |
| SloStatus.DropIndecisive | internal/controller/freeze.go:63-86 | nor does deleting any one such report, anywhere in a run, and so any subset of them |
| SloStatus.MeasuredExactly | internal/controller/slo_status.go:111-135 | exactly: a finite ratio is measured, and the two freeze bounds hold at the budget and at 95% of it |
| SloStatus.FreezeFollowsTheAlert | internal/controller/freeze.go:63-86 | from answer to freeze: an unfrozen claim freezes iff its ratio reaches the number the 1x alert's text denotes, a frozen one unfreezes iff it is down to 95% of that |
| Truncate.BoundaryIffRuneStart | internal/webhook/v1alpha1/serviceclaim_webhook.go:178-180 | in valid UTF-8 (section 4 of RFC 3629) a cut leaves valid text exactly when the byte after it can start a character |
| Truncate.StartWithinThree | internal/webhook/v1alpha1/serviceclaim_webhook.go:178-180 | going back at most three bytes always meets the start of a character |
| Truncate.Shorten | internal/webhook/v1alpha1/serviceclaim_webhook.go:171-182 | the result fits the limit; valid text comes out valid, as the longest prefix of whole characters that fits plus the ellipsis, in at most three loop steps |
| Webhook.EllipsisEncoded | internal/webhook/v1alpha1/serviceclaim_webhook.go:176-177 | the ellipsis is the three bytes of its character in UTF-8 |
| Webhook.TrimmedAway | internal/webhook/v1alpha1/serviceclaim_webhook.go:145-149 | trimming leaves nothing exactly when every character is white space |
| Webhook.TrimSpaceExact | internal/webhook/v1alpha1/serviceclaim_webhook.go:145-149 | trimming gives the one text that with white space before and after it is the value, and that neither starts nor ends with white space |
| Webhook.ReasonIsFresh | internal/webhook/v1alpha1/serviceclaim_webhook.go:141-152 | an update sets a reason exactly when it stores a non-blank value other than the one stored before; the reason is that value without its surrounding white space |
| Webhook.DecisionMeaning | internal/webhook/v1alpha1/serviceclaim_webhook.go:93-133 | which of the four verdicts an update gets: admitted unless it changes the image under a freeze; else rejected without a fresh reason, or without someone to audit; else admitted with a warning, and audited unless it is a dry run |
| Webhook.Validator.ValidateUpdate | internal/webhook/v1alpha1/serviceclaim_webhook.go:93-133 | the verdict, and one Event more exactly for an audited update with a recorder; its note is valid, within 1024 bytes, and whole unless it has to be cut, and says who changed which image to which, and the break-glass value without its surrounding white space |
| Webhook.Utf8Decodes | internal/webhook/v1alpha1/serviceclaim_webhook.go:124-128 | the bytes a text is given in the model are valid UTF-8 and decode to its code points (section 3 of RFC 3629) |
| FreezeProtocol.StepKeepsInvariant | internal/controller/serviceclaim_controller.go:300-307 | no step of either party breaks this: a running reconcile holds the stored conditions, and the stored bit is what the written history makes it |
| FreezeProtocol.FreezeAcrossRuns | internal/controller/serviceclaim_controller.go:131-152 | in every interleaving of reconciles, lost status writes, updates and dry runs the stored bit equals the history of the reports written |
| FreezeProtocol.FrozenChangeIsDeliberate | internal/webhook/v1alpha1/serviceclaim_webhook.go:93-133 | an image change that lands under the stored freeze carries a non-blank reason different from the one stored just before, and adds exactly its audit record, whose reason is the stored value without its surrounding white space |
| FreezeProtocol.OverridesAreCounted | internal/webhook/v1alpha1/serviceclaim_webhook.go:115-133 | over any run, frozen image changes are at most the reason changes made while frozen, audit records grow by exactly the admissions that are no dry run, and none is lost |
| PromQL.PatternMeaning | internal/slo/rules.go:145-156 | the alternation matches exactly the decimal texts of the listed statuses, and uses no other special character |
| PromQL.GoodStatusPattern | internal/slo/rules.go:147-156 | an empty list is refused; otherwise the pattern built by the loop has that meaning |
| PromQL.RatesSplit | internal/slo/rules.go:90-108 | bad requests plus good requests are all requests, and no rate is negative |
| PromQL.AvailabilityMeaning | internal/slo/rules.go:98-110 | over every set of series the availability query is no data iff there were no requests, and else bad/all = 1 - good/all, in [0, 1], 0 when nothing was bad |
| PromQL.LatencyMeaning | internal/slo/rules.go:112-120 | the latency query is 1 - fast/all; no data exactly when the bucket or the count has no series or both total zero, infinite exactly when only the count does |
| PromQL.LatencyRange | internal/slo/rules.go:112-120 | over every database whose bucket totals at most its count, the latency query has no data or measures a share in [0, 1] |
| PromQL.FreezeFromRequests | internal/controller/slo_status.go:91-135 | from counted requests to the freeze: an unfrozen claim freezes iff there were requests and the bad ones are at least the budget's share |
| Alerts.RecordingRules | internal/slo/rules.go:71-88 | one rule per window with that window's query and the service, owner and tier labels, under pairwise different names, or none when the SLI makes no query |
| Alerts.RecordNameValid | internal/slo/rules.go:57-61 | a record is a valid metric name for every SLI type of letters, digits and dashes, and keeps the type, dashes as underscores, and the window |
| Alerts.WindowsAscend | internal/slo/rules.go:52-55 | the recorded windows are listed shortest first |
| Alerts.TableWellFormed | internal/slo/alerts.go:60-65 | every burn rate is a plain decimal, every window is recorded, no two rows share a long window |
| Alerts.TableFollowsTheWorkbook | internal/slo/alerts.go:49-71 | every short window is a twelfth of its long one; a row goes off at 2%, 5%, 10% and 10% of a 30-day budget spent in its long window; rates fall and windows grow down the table, pages before tickets |
| Alerts.AlertRules | internal/slo/alerts.go:110-156 | one alert per row with that row's records, exact threshold, and labels filled in step by step, exactly when the objective and the SLO window are valid |
| Alerts.AlertsTellApart | internal/slo/alerts.go:131-138 | no two alerts of a claim carry the same labels, and each carries its service, owner, tier and severity |
| Alerts.FastBurnIsFirstAlert | internal/controller/slo_status.go:87 | the burn rate that makes an SLO unhealthy is the first row's, read from its text |
| Alerts.HealthFollowsTheAlert | internal/controller/slo_status.go:132-148 | from the hour's errors to health: while budget is left an SLO is unhealthy iff the hour's ratio reaches the number the text of the first alert's threshold denotes |
| Alerts.SloWindowExact | internal/slo/alerts.go:158-165 | a window is accepted exactly when it is a positive 64-bit number of days, in digits with or without a plus sign, and a d; and then it is that number |
| Alerts.AlertsReadRecorded | internal/slo/alerts.go:136-140 | every ratio a generated alert reads is recorded by a recording rule |
| Alerts.RecordedAreCompared | internal/slo/rules.go:48-50 | every recorded window is one some alert compares |
| Alerts.AlertFiresExactly | internal/slo/alerts.go:105-141 | an alert fires iff both recorded ratios exceed burnRate x (1 - objective/100), with no rounding in between |
| ServerSideApply.NoOpIffSettled | DECISIONS.md:420-421 | an apply stores the object unchanged, entry included, exactly when it already owns and holds precisely what it sends |
| ServerSideApply.ApplyIdempotent | internal/controller/serviceclaim_controller.go:233-236 | applying twice is applying once |
| Drift.FaithfulEdit | internal/controller/drift.go:82-97 | no foreign edit makes the controller own anything but desired values, or own more than before |
| Drift.DriftExact | internal/controller/drift.go:82-97 | an object is reported iff it is missing or a desired path lost its value or ownership; an unreported one is stored unchanged |
| Drift.DriftHistory | internal/controller/serviceclaim_controller.go:229-238 | over every sequence of foreign edits, deletion marks and deletions between two applies, each at its own time: reported iff some step took the object, a desired value or its ownership away, even if a later one put it back |
| Drift.RacedEdits | internal/controller/serviceclaim_controller.go:229-238 | any number of edits between read and apply, each at its own time, on whatever copy was read, are put back; they are reported iff that copy did not own the desired paths, or the apply changed a value or started an entry in another second than its entry carried |
| Drift.RacedEditCanBeMissed | internal/controller/drift.go:82-97 | an instance of such an edit that changes a value and is not reported |
| Builders.Build | internal/builders/set.go:44-85 | growing the list by conditional appends gives the list of the tier and storage setting, or nothing for a spec that makes no rules |
| Builders.BuildableExactly | internal/builders/set.go:42-56 | a spec can be built exactly when its SLI makes a query, its objective is a plain decimal in [90, 100), and its window a positive number of days |
| Builders.ObjectsByTier | internal/builders/set.go:34-37 | for every spec, an object is in the list exactly when it is the Namespace or one its tier and storage setting call for, by kind and name |
| Builders.ObjectCounts | internal/builders/set.go:39-41 | 13, 12 and 8 objects for the three tiers, and two more with storage on a linked cluster |
| Builders.BuiltObjects | internal/builders/set.go:31-104 | for every spec: Namespace first, pairwise distinct keys, AnalysisTemplate before Rollout, watched kinds only, labels leading back to exactly the claim |
| Builders.ObjectContents | internal/builders/builders.go:65-89 | every object carries the claim's name and owner, and otherwise its payload, that for storage when there is storage; a Rollout asks for one replica exactly when it is not autoscaled |
| Builders.WatchedExactly | internal/builders/set.go:87-104 | the controller watches exactly the kinds that some claim's list holds, ACK's only on a linked cluster |
| Builders.KeysByName | internal/builders/builders.go:55-58 | two claims share an object key exactly when they have the same name, whatever their namespaces |
| Readiness.AckConditions | internal/controller/storage.go:214-236 | the map holds, for every type, the status of its last entry |
| Readiness.StorageCondition | internal/controller/storage.go:162-199 | the loop with early returns gives the verdict of the first object that is not provisioned |
| Readiness.StorageMeaning | internal/controller/storage.go:162-199 | True iff every object exists, is readable, not Terminal and ResourceSynced; else the first that is not decides: Unknown when it is unreadable, failed when Terminal, else provisioning |
| Readiness.ReadyMeaning | internal/controller/freeze.go:94-137 | True iff synced, storage ready if asked for, and the Rollout Healthy with its own generation, in decimal, as the observed one; Unknown iff, all before being well, storage or the Rollout could not be read; the first thing amiss gives the reason |
| World.Reach | internal/controller/serviceclaim_controller.go:222-242 | the count of a pass: every apply before it succeeds, and the one at it, if any, fails |
| Reconciler.ApplyObject.RemoveNestedField | internal/controller/apply.go:38-40 | removes in place exactly the paths under a prefix |
| Reconciler.ToApplyObject | internal/controller/apply.go:33-42 | the request holds built fields with built values and nothing under either creationTimestamp or status |
| Reconciler.Controller.WriteObject | internal/controller/serviceclaim_controller.go:348-365 | a changed object enqueues the claims its old and new labels name; an unchanged one raises nothing |
| Reconciler.Controller.WriteClaim | internal/controller/serviceclaim_controller.go:371-382 | a claim write enqueues it exactly when the predicate admits the event |
| Reconciler.Controller.ApplyObjects | internal/controller/serviceclaim_controller.go:222-242 | applies exactly the prefix before the first failure, and the failing one when only its response was lost; returns that prefix's length and, in order, the corrections it made |
| Reconciler.Controller.ReportDrift | internal/controller/drift.go:109-122 | one event per correction, in order, with a recorder; none without |
| Reconciler.Controller.ApplyFinalizer | internal/controller/serviceclaim_controller.go:281-295 | adds the finalizer, or releases a deleted claim, which goes unless someone else holds it |
| Reconciler.Controller.ApplyStatus | internal/controller/serviceclaim_controller.go:300-345 | stores merged conditions and status fields, storage names included, and nothing else of the claim |
| Reconciler.Controller.FinalizeClaim | internal/controller/serviceclaim_controller.go:247-277 | deletes only a namespace read as the claim's own, releases when it is gone or another's, and polls otherwise |
| Reconciler.Controller.ReconcileObjects | internal/controller/serviceclaim_controller.go:154-210 | apply, report, evaluate and write status end in the specified state and result |
| Reconciler.Controller.ReconcileExisting | internal/controller/serviceclaim_controller.go:121-152 | the finalizer comes first; a spec that cannot be built writes only status |
| Reconciler.Controller.Reconcile | internal/controller/serviceclaim_controller.go:105-210 | the whole imperative reconcile, with queue and timers, equals the function World.Reconciled |
| Passes.PassExact | internal/controller/serviceclaim_controller.go:222-242 | after n applies each of the first n objects is one apply of what was stored before, and every other object, later ones included, is untouched |
| Passes.CorrectionsReadStart | internal/controller/serviceclaim_controller.go:222-242 | the corrections of a pass depend only on what was stored before it |
| Passes.PassSettles | internal/controller/serviceclaim_controller.go:222-242 | a full pass leaves every object as desired, whatever was stored |
| Passes.SettledPass | DECISIONS.md:274-276 | a pass over settled objects changes nothing and raises no event |
| Passes.FailuresLeaveNoTrace | internal/controller/serviceclaim_controller.go:222-242 | after any passes that failed anywhere, with or without the failing apply taking effect, one full pass ends with the fields and owners a full pass from the start would have made, for every object |
| Reconciles.PatchesCarryLabels | internal/controller/serviceclaim_controller.go:385-398 | every apply of a claim sends labels that lead back to it |
| Reconciles.DriftReportedExactly | internal/controller/serviceclaim_controller.go:154-158 | whatever others did since the known objects were settled, the reconcile of a claim whose stored ResourcesSynced is True at its current generation records exactly the applied objects it put back, in order: known ones that were disturbed, new ones missing or whose entry the apply changes; undisturbed known ones are stored unchanged; any other claim's, or one without reader or recorder, records nothing |
| Reconciles.MissingIsRecorded | internal/controller/serviceclaim_controller.go:222-242 | the reconcile of an in-sync claim records every applied object that was missing, also one that never was there |
| StatusWrites.StatusConditions | internal/controller/serviceclaim_controller.go:160-203 | synced iff every object was applied; ready iff, besides, storage is there and the Rollout up to date; SLOHealthy as reported; the freeze as decided on this report; StorageReady iff the storage asked for is there |
| StatusWrites.InvalidStatusConditions | internal/controller/serviceclaim_controller.go:131-152 | a spec that cannot be built is written as neither synced nor ready and of unknown health, and keeps the freeze |
| StatusWrites.FreezeWritten | internal/controller/serviceclaim_controller.go:105-210 | a whole reconcile sets the freeze on an exhausted report, clears it on a recovered one, and keeps it otherwise, or when its status write fails |
| StatusWrites.HealthWritten | internal/controller/serviceclaim_controller.go:160-210 | a whole reconcile on a measured window stores SLOHealthy False iff the budget is gone or the hour's ratio reaches the first alert's printed threshold, Unknown iff the hour's ratio is no number |
| StatusWrites.FieldsWritten | internal/controller/serviceclaim_controller.go:297-352 | the other status fields a whole reconcile stores: the objects applied before a request failed, generation and time, a budget iff measured, a burn rate iff the hour was, and where the storage is |
| StatusWrites.ReadyWritten | internal/controller/serviceclaim_controller.go:183-209 | a written Ready is True iff in the same reconcile everything was built and applied, both ACK objects of storage asked for were provisioned and the Rollout was healthy at its own generation; a written sync means every object is stored as desired |
| StatusWrites.DriftBetweenReconciles | internal/controller/serviceclaim_controller.go:154-158 | from one full reconcile to the next, with any foreign edits and perhaps a restart with other settings in between, exactly the disturbed objects are recorded, and of objects new with those settings those missing or whose entry the apply changes |
| StatusWrites.NewStorageIsRecordedAsRecreated | DECISIONS.md:413-417 | linking a running operator to AWS makes the next reconcile of an in-sync claim with storage record its Role as recreated, though it never was there |
| StatusWrites.FreezeProtocolRefined | internal/controller/serviceclaim_controller.go:131-210 | a whole reconcile is the freeze protocol's: begin, then write with this reconcile's report, or abandon when the write fails, storing the same conditions |
| Quiescence.PassEvents | internal/controller/serviceclaim_controller.go:385-392 | a pass enqueues the claims named by the objects it changes, before and after the change, and none beyond those already known |
| Quiescence.CalmFinalizing | internal/controller/serviceclaim_controller.go:247-277 | one reconcile of a deleted claim releases it, deletes its namespace, or waits, by what the namespace is |
| Quiescence.LiveStepQuiet | internal/controller/serviceclaim_controller.go:367-382 | a settled claim's reconcile changes no object and enqueues nothing; its status write is dropped |
| Quiescence.OtherUnsettled | internal/builders/builders.go:55-58 | a reconcile neither settles nor unsettles a claim of another name |
| Quiescence.StepKeeps | internal/controller/serviceclaim_controller.go:105-210 | a reconcile makes no claim known that was not, drops no other claim from the queue, and changes no spec or deletion mark |
| Quiescence.MeasureDrops | internal/controller/serviceclaim_controller.go:105-210 | every reconcile of a queued claim lowers a measure of unsettled claims, finalizations left and queue length |
| Quiescence.FiringKeeps | internal/controller/serviceclaim_controller.go:209 | a timer adds at most one to that measure |
| Quiescence.Drains | DECISIONS.md:251-276 | from any cluster state, with distinct names of live claims, no schedule of queued reconciles with timers firing in between holds more reconciles than the measure, and one for each timer that fired |
| Resting.ScheduleAttends | internal/controller/serviceclaim_controller.go:385-392 | along every schedule, timers included, each claim is queued or needs nothing but its timer |
| Resting.DrainedIsAtRest | internal/controller/serviceclaim_controller.go:209-210 | from an operator start, any schedule, timers included, that leaves the queue empty has every live claim settled, every deleted one waiting for its namespace, and timers set |
| Resting.TimersKeepRest | internal/controller/serviceclaim_controller.go:367-382 | over every schedule from there no object changes, and the only reconciles are one for each timer that fires |
| Contention.ContentionStays | internal/controller/serviceclaim_controller.go:385-392 | while two live claims of one name exist, whatever is reconciled next, one holds the namespace or will, and the other is queued |
| Contention.ContentionLasts | internal/controller/serviceclaim_controller.go:385-392 | so no schedule whatever ever empties the queue |
| Contention.NeverDrains | internal/controller/serviceclaim_controller.go:385-392 | and schedules without a timer go on for any number of reconciles |
| Contention.QuiescesIffNamesDistinct | DECISIONS.md:251-276 | an operator start with every claim queued has a bound on its reconciles, timers' own aside, iff no two live claims that can be built share a name |
| Contention.SomeStartNeverRests | DECISIONS.md:251-276 | such a start exists: two accepted claims of one name in two namespaces, both queued, for which no bound holds |
| Frame.ObjectAfter | internal/controller/serviceclaim_controller.go:105-210 | any reconcile, failed or not, leaves each object's fields and owners, or makes them one apply of the claim's manifest |
| Frame.ReconcileKeepsValue | internal/controller/apply.go:27-42 | a path no claim sends and the controller does not own keeps its value through a reconcile and stays unowned |
| Frame.OthersKeepTheirFields | internal/controller/serviceclaim_controller.go:222-242 | over every run of reconciles, foreign edits and claim changes, no reconcile changes such a path |
| Frame.ReplicasNeverSent | internal/builders/rollout.go:100-102 | the replica count of the Rollout is such a path while the claims of its name are autoscaled |
| Frame.StatusIsOthers | internal/controller/apply.go:27-42 | over every run, no reconcile changes a path under any object's status that is not the controller's |
| Frame.ReplicasAreTheAutoscalers | internal/builders/rollout.go:100-102 | nor the replica count of a Rollout whose claims are autoscaled from its creation |
| Frame.ReplicasKeptIff | internal/builders/rollout.go:100-102 | an apply for an autoscaled claim removes a replica count iff the controller alone owns it, and otherwise leaves its value |
| Frame.TierChangeDropsReplicas | internal/builders/rollout.go:100-102 | a Rollout created for a batch claim loses its replica count when the claim becomes autoscaled |
| Runs.LiveResult | internal/controller/serviceclaim_controller.go:105-216 | a live claim's reconcile ends in an error, and is queued again, iff the claim read, the finalizer, an apply, the Rollout read or the status write failed; else it asks to run again in a minute, or not at all when the spec cannot be built |
| Runs.DeletedResult | internal/controller/serviceclaim_controller.go:247-277 | a deleted claim's reconcile ends in an error iff a request it makes failed, polls in five seconds while its own namespace is there, and is done otherwise |
| Runs.OwnAttempt | internal/controller/serviceclaim_controller.go:105-216 | after its reconcile, whatever failed, a claim is queued or timed, or needs none: gone, released, or rejected in its status at this generation |
| Runs.DroppedUpdates | internal/controller/serviceclaim_controller.go:367-382 | an update does not enqueue exactly when it touches nothing but status and finalizers of a claim not being deleted |
| Runs.ObjectEvents | internal/controller/serviceclaim_controller.go:385-392 | a write of an object enqueues a claim exactly when it changes the object and its labels, the managed-by label among them, named the claim before or do so now |
| Runs.NoClaimForgotten | internal/controller/serviceclaim_controller.go:105-216 | over every run of reconciles that fail anywhere, timers, restarts and writes by others this stays so; a live buildable claim, and a deleted held one, is always queued or timed |
| Runs.SyncedIsHistory | internal/controller/drift.go:99-105 | over every run the stored ResourcesSynced is that of the last status write since creation: its generation, and True iff that reconcile had applied everything |
| Runs.DriftFollowsFullPass | internal/controller/serviceclaim_controller.go:154-158 | over every run a reconcile records drift only if that last write was of a full pass at the generation the claim still has, and then what it put back |
| Runs.SpecEditIsNoDrift | internal/controller/drift.go:99-105 | so the first reconcile after an update that raises the generation records nothing, whatever it changes |
| Finalizer.ControllerKeeps | internal/controller/serviceclaim_controller.go:117-126 | every request of the controller keeps the safety invariant |
| Finalizer.OthersKeep | internal/controller/serviceclaim_controller.go:247-277 | so does everything users, other managers and the namespace controller do between two requests |
| Finalizer.SafeOverRuns | internal/controller/serviceclaim_controller.go:117-126 | in every interleaving, a namespace applied for a claim and labelled as its own since belongs to a claim that exists and holds the finalizer |
| Finalizer.OwnerSinceRead | internal/controller/serviceclaim_controller.go:253-275 | between read and decision the labels of a namespace are those last given it, or those it had when read |
| Finalizer.DeleteIsForItsClaim | internal/controller/serviceclaim_controller.go:266-275 | over all runs: a delete is issued only for a claim being deleted and still held, on a copy labelled as its own; the namespace deleted is labelled otherwise exactly when someone named another owner since that copy was current and nobody named the claim again |
| Finalizer.ReleaseOrphansIff | internal/controller/serviceclaim_controller.go:253-268 | over all runs: a release leaves a namespace labelled as the claim's exactly when one is there that was handed back since the read, or was the claim's then, without the managed-by label, and not handed over since |
| Finalizer.StrippedLabelOrphans | DECISIONS.md:278-280 | a run that ends with the claim gone and its namespace, created and labelled for it, still there |
| Finalizer.RelabelledNamespaceIsDeleted | internal/controller/serviceclaim_controller.go:270-274 | a run in which the controller deletes a namespace labelled as another claim's |
| Release.OwnReconcile | internal/controller/serviceclaim_controller.go:247-277 | a deleted claim's reconcile never raises its level (own namespace, terminating, gone or another's, released) and without failures lowers it unless it waits |
| Release.OtherNamespace | internal/controller/serviceclaim_controller.go:266-269 | another claim's reconcile can take the namespace away from a deleted claim, never give it |
| Release.HappeningKeeps | internal/controller/serviceclaim_controller.go:247-277 | nothing else that happens raises the level either, whatever others do to the claim and its namespace short of giving it back, and a completed namespace deletion lowers it |
| Release.FinalizerReleased | internal/controller/serviceclaim_controller.go:247-277 | whatever else happens, edits, relabels and deletions of the namespace by others included, two reconciles that do not fail, with the namespace controller finishing in between, release every deleted claim, also when the namespace is another claim's; only giving the claim a namespace back is excluded |
| Release.DueOverRuns | internal/controller/serviceclaim_controller.go:247-277 | and those reconciles come: from its deletion until it is released, over every run, a claim is always queued or has a timer |
| Release.DueThrough | internal/controller/serviceclaim_controller.go:247-277 | every reconcile of any claim, failed or not, and everything else that happens keeps it so |
| Release.FinalizeRefines | internal/controller/serviceclaim_controller.go:247-277 | every reconcile of a deleted claim, failed or not, is the request-level protocol's fetch, read and decide in a row, or stops at a failed request |
| Release.HoldRefines | internal/controller/serviceclaim_controller.go:117-126 | every reconcile of a live claim is its fetch, finalizer and namespace apply in a row, or stops at a failed request or an unbuildable spec |
| LinkStore.RandomCode | services/shortlink/store.go:56-65 | overwriting the buffer in place maps each random byte to its character: seven alphabet characters, or a failed read |
| LinkStore.CharacterOfByte | services/shortlink/store.go:56-65 | each of the 57 alphabet characters comes from four or five of the 256 random bytes, which ones by position |
| LinkStore.Store.Add | services/shortlink/store.go:30-45 | the first draw not taken decides; on success exactly one link is added under a code no one had; after five taken draws, or a failed read, the map is unchanged |
| LinkStore.RunKeeps | services/shortlink/store.go:30-53 | in every interleaving under the read-write lock, for every stream of random bytes, the invariant holds and the map only grows |
| LinkStore.ReturnedCodeLasts | services/shortlink/store.go:30-45 | a returned code is well formed, resolves to its target forever, and no other add returns it |
| LinkStore.ReturnedCodeIsFound | services/shortlink/store.go:48-53 | a get reading after an add returned its code finds the target |
| LinkStore.FailedAddChangesNothing | services/shortlink/store.go:30-45 | an add that failed stored nothing at any time: one out of attempts looked up five codes, each taken at that moment, one whose random read failed gave up before; every stored code is one some other add put there |

## Left out

- Text layout: query strings with their quoting, condition and Event messages, formatted percentages and burn rates. Queries are expression trees, reports keep only whether a value is shown.
- LatencyBucket and BudgetLifetime: duration parsing and float formatting. A latency threshold is the bucket label it becomes.
- Bit-level float64: replaced by abstract monotone rounding, and by exact reals where equality matters.
- Object content other than labels and the replica count (dashboards, runbooks, policies, probes, IAM): constants, given to the model as an arbitrary payload.
- Condition messages and transition times, which no decision reads.
- Prometheus, ACK, Argo Rollouts and the namespace controller themselves: their answers are inputs or nondeterministic steps.
- A claim's own field ownership: only which of its parts each write sets. Storage bucket and role names are a function of the claim given with the configuration.
- Finalizers of other parties: World and Finalizer keep whether there is one, not which.
- Rule annotations, which are text.
- API validation, defaulting by the server, caches, leader election, TLS and the HTTP servers.
- Budget.ThresholdExact: burn rates are plain decimals, as every row of the table is; Budget.AnyThresholdExact covers every value another form could denote, but parsing those forms is not modelled.
- Reconciler.Controller.WriteObject: kinds are not consulted when routing events, since every object the controller writes is of a watched kind.
