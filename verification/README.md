# Switchboard: a verified model of its core

Switchboard sends one machine-learning job to one of several cloud providers, follows it, and moves it to another
provider when the first one fails in a way worth retrying. This project models the parts of it that have unbounded
behaviour and proves what they promise, in Dafny 4.11. `dafny verify dfyconfig.toml` checks everything.

| files | part of the system |
|---|---|
| `Failover`, `FailoverTheorems`, `RunStore`, `Checkpoint` | the failover loop of a run, the store it shares with a cancellation, and the checkpoint it resumes from |
| `Routing`, `RoutingTheorems`, `GcpInventory`, `Registry` | choosing a provider and a hardware shape, and the live facts that feed the choice |
| `LogTail`, `Monitor`, `Lifecycle` | following a remote job's files by polling, and the life of its instance |
| `Resources`, `Cleanup` | the table of provider resources, written by callbacks and by cleanup passes |
| `Redaction`, `PathRewrite`, `Shell`, `EnvKeys`, `EnvProtocol` | string algorithms: secrets, mount paths, shell quoting, the environment protocol for data inputs |
| `Strings`, `Sorting`, `Wrappers`, `App` | what they share |

How to read it:

- Code that the repository writes as loops over mutable state is written here as methods and classes, each proved
  against a function or a predicate on values; the promises are then lemmas about those, for all inputs and all runs.
- What is outside the repository's control is a parameter and therefore arbitrary: what a provider answers, what a poll
  reads, what the cloud lists, when another process writes. `nat -> T` parameters are such scripts.
- `RunStore.Store` lets other processes write before every store call. A statement without `Quiet()` holds for every
  interleaving with half-finished cancellations. A statement with `Quiet()` is about runs in which each cancellation
  completes as a whole inside a `Submit`: the store's updates are unconditional, so a cancellation that straddles the
  orchestrator's own read and write can lose its attempt-level effect.
- Some promises are false of the code for some inputs. Each is stated with the condition under which it holds, both ways,
  and with an input that breaks it:

  | promise | holds exactly when | broken by |
  |---|---|---|
  | no secret without brackets survives redaction | `Redaction.LeakFreeExactly` | `RedactSurvives` |
  | one secret, with or without brackets, never survives its own replacement | `Redaction.SingleSecretExactly`, for secrets that do not overlap themselves | `BracketSecretCanLeak` |
  | every occurrence of a mount on path boundaries is rewritten | `PathRewrite.AllTokensReplacedExactly` | `OverlappingMountIsMissed` |
  | all structured lines are emitted, whatever the schedule of polls | `Monitor.EventsCompleteExactly` | `LongLineLosesEvent` |
  | the instance is terminated as the recorded policy says | `Lifecycle.PolicyFollowedExactly` | `FailedCallbackDefeatsPolicy`, `FailedRunningUpdateDefeatsPolicy` |
  | the estimated cost is the reported rate times the runtime | `RoutingTheorems.CostIsReportedRateExactly` | `NegativePriceBreaksCost` |
  | data inputs survive the environment | `EnvProtocol.RoundTripExactly` | `CollidingNamesMerge` |
  | two reported resources keep two rows | `Resources.RedactedIdentityDecides` | `RedactionCanMerge` |

## Model

| member | source | states |
|---|---|---|
| Failover.RunAttempts | internal/cli/root.go:521-584 | under any interleaving with cancellations: the run ends terminal from inside the loop; there are at most max(1, MaxAttempts) attempts (one for a fixed provider), never two running at once; each was chosen by the route or the configuration from the checkpoint of the moment (`Rounds`); every attempt but the last was submitted and failed retryably, below the limit, with a checkpoint to go on from (`AllRetried`); and the call ends for one of six reasons with that reason's code, failure flag and run (`EndsFor`). With whole cancellations no attempt is left running and the run is canceled exactly when the last attempt was canceled in its `Submit` (`QuietOutcome`). The event log at the end is that of the submitted attempts (`LogOf`) |
| Failover.Iterate | internal/cli/root.go:530-582 | one iteration keeps all of that; it goes on only after a submitted attempt that failed retryably, in auto mode, below the limit, with the failed provider excluded and the latest checkpoint; otherwise it ends the call for the reason it gives |
| Failover.RunAttempt | internal/cli/root.go:841-976 | one row is added with provider, checkpoint and, only if the attempt gets as far as `Submit`, the rate (`RowOf`); otherwise run and attempt end failed with the code of what is missing and nothing is logged (`AttemptEnd`, spelled out by SubmittedExactly and RefusedAttemptEndsCall below); a submitted attempt logs the events of its submission and ends with its result unless the run was found canceled; with whole cancellations the run is canceled exactly when one landed during `Submit` |
| Failover.AfterSubmit | internal/cli/root.go:917-976 | a run found canceled keeps its rows and reports 130 without failure, whatever `Submit` returned; otherwise the result is the submission's code, retryable exactly when its error is, and the run gets the submission's outcome exactly when it is not retryable |
| Failover.DuringSubmit | internal/cli/root.go:904-916 | whatever happens during `Submit`, only cancellations change other rows, no attempt starts, and the first cancellation that lands ends the run and the attempt in flight for good |
| Failover.Choose | internal/cli/root.go:531-560 | either the choice is what the configuration or the route selects, hardware included, or no provider can take the run, which then fails with code 40 when there is a checkpoint and 30 otherwise |
| Failover.FinishFailed | internal/cli/root.go:831-835 | attempt and run end as failed with the same code |
| Failover.FinishRunOnly | internal/cli/root.go:837-839 | the run ends as failed, the attempts keep their choices, and the call's outcome is a proper end |
| Failover.AnotherRound | internal/cli/root.go:562-580 | a choice selected from the right checkpoint without the providers tried before extends a correct history of choices |
| Failover.TouchKeepsChoices | internal/state/store.go:202-207 | a cancellation never changes which provider an attempt went to, what it resumed from or what rate it stored |
| FailoverTheorems.NoProviderTwice | internal/cli/root.go:528-572 | in auto mode the attempts of one call go to pairwise distinct providers |
| FailoverTheorems.SubmittedExactly | internal/cli/root.go:852-898 | a row of a call has a stored rate, so was submitted, exactly when its provider is registered, a local job is prepared, the adapter validates the job, and the hardware has a positive rate or there is an estimate; the rate is the hardware's, or else the estimate |
| FailoverTheorems.RefusedAttemptEndsCall | internal/cli/root.go:852-896 | an attempt without these is the last one: the call and the run fail with 1, 10, 10 or 30 and the message of the first that is missing, and nothing was logged since the attempt before it |
| FailoverTheorems.AttemptsBoundedByRegistry | internal/cli/root.go:528-572 | so the size of the registry bounds the attempts, whatever MaxAttempts is |
| FailoverTheorems.ResumesFromLatest | internal/cli/root.go:573-580 | every attempt after the first resumes from the checkpoint of greatest step logged when the one before it failed, the later one on ties |
| FailoverTheorems.StepsNeverFall | internal/cli/root.go:573-580 | resume steps never decrease along a call, and once an attempt resumes all later ones do |
| FailoverTheorems.ChosenProviderIsEligible | internal/cli/root.go:531-560 | in auto mode a chosen provider is registered, was not excluded, and lists the scheme of the checkpoint, "file" when its URI has none; a fixed one is the configured one and lists what stands before "://" |
| FailoverTheorems.FixedProviderRefusedExactly | internal/cli/root.go:586-602 | the run of a fixed provider is refused exactly when it resumes and the provider is not registered, does not answer, or does not list the scheme |
| FailoverTheorems.SchemeIsCut | internal/cli/root.go:675-680 | that scheme is what stands before the first "://" in lower case, or "file" when there is none or nothing before it |
| FailoverTheorems.RetryableExactly | internal/app/types.go:302-325 | a submission is retryable exactly when it failed with a provider error of capacity, quota, network or internal kind |
| FailoverTheorems.GoesOnOnlyAfterRetryableFailure | internal/cli/root.go:561-580 | another provider is tried only after such a failure of the one before, in auto mode, below the limit, with a checkpoint to go on from |
| FailoverTheorems.StopsOnlyForAReason | internal/cli/root.go:561-580 | a call whose last submission failed retryably ends for one of four reasons only: the run was found canceled (130, no failure), the limit was reached or the provider is fixed (the submission's code), there was no checkpoint (40), or no other provider can take the run (40) |
| FailoverTheorems.NoAttemptWithoutProvider | internal/cli/root.go:531-560 | a call without any attempt had no provider to begin with and fails with 40 when it was given a checkpoint and 30 otherwise |
| FailoverTheorems.LandsExactly | internal/cli/root.go:1155-1209 | a cancellation lands during `Submit` exactly when one that the provider accepts comes after the job was started with a reference |
| FailoverTheorems.SucceedsExactly | internal/cli/root.go:946-976 | with whole cancellations the run succeeds exactly when the last attempt was submitted, not canceled, and returned no error and exit code 0 |
| FailoverTheorems.CanceledExactly | internal/cli/root.go:917-956 | with whole cancellations the run ends canceled, with exit code 130, exactly when a cancellation landed during some `Submit` |
| FailoverTheorems.CanceledAttemptIsLast | internal/cli/root.go:917-956 | that attempt is then the last one, canceled with code 130 whatever `Submit` returned, and the call reports no failure |
| FailoverTheorems.RoutedRateIsStored | internal/cli/root.go:883-898 | in auto mode outside manual hardware, an attempt on routed hardware that is submitted stores exactly the positive rate of that hardware |
| FailoverTheorems.NoRouteMeansNoChoice | internal/cli/root.go:531-560 | for the same answers a provider is chosen or none can be, never both |
| FailoverTheorems.CallIsDetermined | internal/cli/root.go:521-584 | with whole cancellations, what the world answers determines the whole call: providers, checkpoints, hardware, exit code, failure and run; so the contract of RunAttempts leaves no other outcome |
| FailoverTheorems.AllAttemptsEnd | internal/cli/root.go:521-584 | with whole cancellations, every attempt of the call ends, all but the last one as failed |
| RunStore.Store.CancelRun | internal/cli/root.go:1155-1209 | cancels the last running attempt and the run when the run is running, the attempt has a reference and the provider accepts; otherwise changes nothing |
| RunStore.FindRunning | internal/cli/root.go:1155-1209 | finds the last running attempt, or none |
| RunStore.Store.CreateAttempt | internal/state/store.go:183-193 | adds a row last and keeps the earlier ones up to cancellations; with none running before, at most one runs after |
| RunStore.Store.FinishAttempt | internal/state/store.go:202-207 | overwrites the outcome of one row unconditionally, starts nothing, and changes other rows only by cancellations |
| RunStore.Store.FinishRun | internal/state/store.go:195-200 | overwrites the run's outcome unconditionally |
| Checkpoint.Latest | internal/checkpoint/resolver.go:16-35 | computes the fold `LatestOf` over the log |
| Checkpoint.LatestOfIsLatest | internal/checkpoint/resolver.go:16-35 | the fold yields a checkpoint event of greatest step, the last one among equals, and none exactly when no event is one |
| Checkpoint.IsLatestUnique | internal/checkpoint/resolver.go:16-35 | a log has only one such checkpoint |
| Checkpoint.LatestNeverFalls | internal/checkpoint/resolver.go:16-35 | as the log grows the checkpoint does not disappear and its step does not fall |
| Registry.NewRegistry | internal/provider/registry.go:14-24 | succeeds exactly when names are distinct, and then maps each name to its adapter |
| Registry.List | internal/provider/registry.go:34-41 | enumerates the names in strictly ascending order, each once |
| Routing.Select | internal/routing/routing.go:59-118 | the candidates are exactly the registered providers that qualify, in name order, and the rejections the others; it fails exactly when there is no candidate, no shape matches the manual choice, or hardware routing has no sizing or no acceptable shape; without hardware routing it selects the cheapest candidate, first name on ties, or the first name, and otherwise the best or first matching shape; what these mean on the fields of the options and shapes is stated by RouteSelectsBestOffer, HardwareRouteFailsExactly, ManualRoute and RouteWithoutHardware below |
| Routing.EligibleProviders | internal/routing/routing.go:59-100 | every registered provider is listed once, in name order, as a candidate or as rejected with its reasons |
| Routing.CandidateExactly | internal/routing/routing.go:66-100 | a provider is a candidate, with its own rate and capabilities, exactly when it is not excluded, answers, supports the job, gives an estimate, takes bundles or lists the scheme of every data input, and lists the scheme of the checkpoint |
| Routing.CapabilityRejections | internal/routing/routing.go:445-475 | lists one reason for each capability the job needs and the provider lacks |
| Routing.SelectHardwareRoute | internal/routing/routing.go:124-186 | fails exactly without sizing hints or without an accepted shape; otherwise selects the best accepted shape and lists all others |
| Routing.SelectManualHardware | internal/routing/routing.go:218-264 | selects the first shape that matches the manual choice, and fails exactly when none does |
| RoutingTheorems.EveryShapeListedOnce | internal/routing/routing.go:136-186 | every shape of every candidate is either eligible or rejected with a reason, and the two lists have as many entries as there are shapes |
| RoutingTheorems.NoRejectionsExactly | internal/routing/routing.go:326-364 | a shape has no rejection exactly when it meets every hardware constraint |
| RoutingTheorems.AcceptedExactly | internal/routing/routing.go:136-160 | a shape is accepted exactly when it meets every constraint and the budget |
| RoutingTheorems.ReasonsExactly | internal/routing/routing.go:326-364 | each of the ten reasons is given against a shape exactly when its condition on the fields holds |
| RoutingTheorems.NeedsExactly | internal/routing/routing.go:285-324 | the memory looked for is what was measured; or else parameters times 4, 2 or 1 bytes by precision, times 4 for adam and adamw, 2 for sgd and 3 for the rest, plus half a gigabyte per batch item, at least one; or else twice the artifact; or else the least memory of one device; and there is no number exactly in `full_auto` without any of these |
| RoutingTheorems.FortyGigabytesAreTooLittle | internal/routing/routing.go:285-324 | seven billion half-precision parameters trained with Adam need 56.5 gigabytes: a shape with 40 is refused and one with 80 is not |
| RoutingTheorems.TakesExactly | internal/routing/routing.go:366-375 | a run takes ten seconds a step divided among the accelerators, at least a minute; without steps an hour so divided, or two hours without accelerators |
| RoutingTheorems.RouteSelectsBestOffer | internal/routing/routing.go:124-186 | of all shapes that the candidates offer and that meet the needed memory, every constraint and the budget, hardware routing selects one that is best by the objective, and reports the fields of that shape with its on-demand price or else its spot price |
| RoutingTheorems.HardwareRouteFailsExactly | internal/routing/routing.go:124-186 | it fails exactly when there is no candidate or, for the memory that is needed, no such shape |
| RoutingTheorems.ManualRoute | internal/routing/routing.go:218-264 | the manual choice selects the first shape it allows, of the first provider with one |
| RoutingTheorems.RouteWithoutHardware | internal/routing/routing.go:101-122 | without hardware routing no hardware is selected, and the cheapest provider, the first name among equals, when the objective is the cost or none is given |
| RoutingTheorems.BestIsBest | internal/routing/routing.go:160-186 | the selected shape is an offered one within all constraints and is lexicographically least by the objective's order among all such shapes |
| RoutingTheorems.ChoiceIgnoresOrder | internal/routing/routing.go:266-283 | with distinct provider and shape identifiers the selected shape does not depend on the order of the reports |
| RoutingTheorems.RaisingBudget | internal/routing/routing.go:143-171 | raising the budget removes no eligible shape, never makes the fastest choice slower, and leaves a cost-ordered choice as it is |
| RoutingTheorems.RuntimeFallsWithAccelerators | internal/routing/routing.go:366-375 | more accelerators never make the estimated run longer |
| RoutingTheorems.CostIsReportedRateExactly | internal/routing/routing.go:352-407 | a shape that passes rejection has a positive reported rate and a cost that does not depend on the provider's own estimate; the cost is rate times runtime over 3600 exactly when its on-demand price is not negative |
| RoutingTheorems.NegativePriceBreaksCost | internal/routing/routing.go:352-407 | a shape with a negative on-demand and a positive spot price passes rejection with a negative cost |
| RoutingTheorems.RoutedHardwareIsPriced | internal/routing/routing.go:352-407 | outside manual mode the hardware that is selected has a positive rate |
| RoutingTheorems.RouteIsUnique | internal/routing/routing.go:59-118 | the candidates determine the selected provider and hardware |
| GcpInventory.EnrichHardwareShapes | internal/provider/gcp/gcp.go:745-760 | enriches every shape in place from the same snapshot |
| GcpInventory.IntersectStrings | internal/provider/gcp/gcp.go:1121-1145 | the intersection holds the common names, each once, without the empty one |
| GcpInventory.BarredExactly | internal/provider/gcp/gcp.go:836-905 | after enrichment a shape is barred from routing exactly when it was before, is not in the inventory, or is short of quota |
| GcpInventory.ZonesExactly | internal/provider/gcp/gcp.go:836-895 | a listed shape ends up with exactly the zones that have both its machine and its accelerator, or those of the one that has any; with none its zones stay |
| GcpInventory.QuotaIsRecorded | internal/provider/gcp/gcp.go:887-905 | a listed shape records the quota of its accelerators, or else of its processors, with limit, usage and what is left |
| GcpInventory.HintExactly | internal/provider/gcp/gcp.go:745-895 | the hint of a shape that is not barred tells an unknown quota, a live inventory, a live price, or stays, by what was there before |
| GcpInventory.StarvedNeverSelected | internal/provider/gcp/gcp.go:885-905 | outside manual mode a shape short of quota is never the selected hardware, for any inventory |
| LogTail.CompleteContentIs | internal/provider/lambda/lambda.go:472-486 | from a line start, the consumed part ends at the last newline and the offset is again a line start |
| LogTail.RedactedLogContent | internal/provider/lambda/lambda.go:488-503 | redacts the content line by line |
| LogTail.RedactLinesSplit | internal/provider/lambda/lambda.go:488-503 | line-by-line redaction distributes over splits at newlines |
| LogTail.ScanLinesSplit | internal/provider/lambda/lambda.go:426-438 | so does scanning, up to the first line that does not fit the scanner |
| LogTail.EmitIs | internal/provider/lambda/lambda.go:426-438 | the seen-set emits each structured line once and nothing else |
| LogTail.EmitKeepsOrder | internal/provider/lambda/lambda.go:426-438 | lines are emitted in order of first appearance |
| Monitor.Follower.AppendNewLogContent | internal/provider/lambda/lambda.go:410-443 | appends the redaction of exactly the new whole lines, emits their new events, and restarts when the file has shrunk |
| Monitor.Follower.AppendNewEventContent | internal/provider/lambda/lambda.go:445-470 | emits the new events of the new whole lines against the same seen-set |
| Monitor.Follower.MonitorRemote | internal/provider/lambda/lambda.go:371-408 | after n polls, of which all but the last were uneventful, the outcome is what the last one tells, an exit marker or a loss, or none when all were uneventful (`DecidedAfter`); and for every sequence of polls of append-only files, whatever fails or when, the local log is the redaction of the last log read cut at its last newline, and the events are those of the consumed lines of both files in order of processing |
| Monitor.ExitedExactly | internal/provider/lambda/lambda.go:371-408 | the job is found to have exited with a code and a reason exactly when some poll has that exit marker and every poll before it has none, an instance that is not lost, and an uninterrupted wait |
| Monitor.LostExactly | internal/provider/lambda/lambda.go:371-408 | the job is given up for an error exactly when after such polls one has an unreadable marker, or none and an instance lost for that error, or none and an interrupted wait |
| Monitor.NextLineScanned | internal/provider/lambda/lambda.go:426-428 | the scanner yields a line without a carriage return at its end, and stops at one of 16 MiB or more |
| Monitor.EventsAreDistinctStructuredLines | internal/provider/lambda/lambda.go:371-470 | over any schedule no event repeats and each is a structured line of a consumed prefix; when every line fits the scanner, all such lines are emitted |
| Monitor.EventsCompleteExactly | internal/provider/lambda/lambda.go:426-438 | for any two files and any notion of a structured line: the events are complete under every schedule of reads exactly when every structured line is among those the scanner keeps of one of the files read at once, before the first line that does not fit |
| Monitor.LongLineIsLost | internal/provider/lambda/lambda.go:426-438 | a line whose text does not fit the scanner is never emitted |
| Monitor.OneReadIsWorst | internal/provider/lambda/lambda.go:426-470 | a line that one read of a file keeps is kept by every schedule of reads |
| Monitor.LongLineLosesEvent | internal/provider/lambda/lambda.go:426-438 | with a line that does not fit, which events are emitted depends on the schedule of polls |
| Lifecycle.Instance.Submit | internal/provider/lambda/lambda.go:155-240 | the recorded states, termination requests and result of a whole submission are those of `SubmitTrace` |
| Lifecycle.Instance.RunMonitored | internal/provider/chinacloud/vm_runtime.go:260-311 | the same from the moment the instance can be reached |
| Lifecycle.Instance.WaitForActive | internal/provider/lambda/lambda.go:342-369 | the first poll that shows an active or a lost instance decides |
| Lifecycle.Instance.FailureResult | internal/provider/lambda/lambda.go:522-537 | a failure terminates when configured, records the final state, and reports the kind's exit code |
| Lifecycle.StartExactly | internal/provider/lambda/lambda.go:342-369 | while waiting, by status and address: which readings go on, which bring the instance up, and which error each other one is |
| Lifecycle.ActiveExactly | internal/provider/lambda/lambda.go:342-369 | waiting ends with an active instance exactly when some poll shows it up and every one before it booting, with uninterrupted waits |
| Lifecycle.NeverUpExactly | internal/provider/lambda/lambda.go:342-369 | and with an error exactly when after such polls one shows it lost for that error or is followed by an interrupted wait |
| Lifecycle.LostWhileExactly | internal/provider/lambda/lambda.go:388-403 | while monitoring, by status: which readings go on and which error each other one is |
| Lifecycle.ExitCodeIsReturned | internal/provider/lambda/lambda.go:214-240 | a submission whose callbacks succeed returns without an error exactly when the instance came up, could be reached and stayed up until its exit marker, and then returns the code of that marker |
| Lifecycle.LossIsReturned | internal/provider/chinacloud/vm_runtime.go:472-533 | it returns a provider's error exactly when the instance was lost for it before it came up, could not be reached, or was lost while monitored |
| Lifecycle.FailureCodeIsReturned | internal/provider/lambda/lambda.go:630-639 | every error is reported with its code: 10 for an invalid job or credentials, 40 for capacity, quota, network and internal errors, and 1 otherwise |
| Lifecycle.SubmitFollowsPolicy | internal/provider/lambda/lambda.go:186-239 | with callbacks that succeed, every submission that returns requests termination exactly once if the recorded policy covers the outcome and never otherwise; states go booting, running, final; the final state is terminating exactly when the request succeeded; success means an exit marker with code 0 (`JobSucceeded`) |
| Lifecycle.UnfinishedSubmitKeepsInstance | internal/provider/lambda/lambda.go:342-408 | while waiting or monitoring, the instance is recorded as live and not terminated |
| Lifecycle.PolicyFollowedExactly | internal/provider/lambda/lambda.go:186-239 | also with failing callbacks, termination follows the recorded policy exactly when an early callback failure meets a configuration that terminates on failure and a failed running update meets one that keeps the instance |
| Lifecycle.FailedCallbackDefeatsPolicy | internal/provider/lambda/lambda.go:186-206 | with policy Never, a failed early callback still terminates the instance |
| Lifecycle.FailedRunningUpdateDefeatsPolicy | internal/provider/lambda/lambda.go:204-206 | with policy Always, a failed running update keeps it |
| Resources.ResourceTable.SaveProviderResource | internal/state/store.go:224-267 | inserts under a fresh identifier or overwrites all but the creation time, and touches no other row |
| Resources.ResourceSession.PersistProviderResource | internal/cli/root.go:978-993 | one callback is one step of the fold that the lemmas below are about |
| Resources.OneRowPerResource | internal/cli/root.go:978-1019 | for every sequence of callbacks, old rows stay, each distinct key has one new row with the last report and the first time, each callback without a key has its own row, and there are no other rows |
| Resources.KeysHaveOwnRows | internal/cli/root.go:978-1019 | no two keys share a row |
| Resources.KeyIdentifies | internal/cli/root.go:1010-1019 | without a bar in provider and kind, equal keys mean equal provider, kind and identity |
| Resources.KeysOnFields | internal/cli/root.go:1010-1019 | resources of one provider and kind are told apart by external identifiers, by references when they have none, and have no key without any of these |
| Resources.RedactedFields | internal/cli/root.go:996-1008 | the two identifiers, the account and the values of the metadata are redacted before a report is stored, and nothing else |
| Resources.RedactedIdentityDecides | internal/cli/root.go:978-1019 | two reports share a row exactly when provider, kind and the identity left after redaction are the same |
| Resources.RedactionCanMerge | internal/cli/root.go:978-1019 | two resources whose identifiers are redacted to the same text end up in one row |
| Resources.BarCanConfuse | internal/cli/root.go:1010-1019 | with a bar in a kind, which no adapter uses, different kinds could share a key |
| Cleanup.CleanUp | internal/cli/root.go:1433-1502 | every resource a pass cancels is a listed one that Switchboard created, with a reference, creating, booting, running or unknown, and not to be kept; after a complete pass every such resource is canceled; they are taken in listing order, each once, up to the first that fails; their rows record it, all other rows are unchanged, and a dry run changes nothing. What is canceled is what providers that can be asked accepted, up to the first that cannot or does not (`AsAnswered`) |
| Cleanup.PickedExactly | internal/cli/root.go:1488-1502 | the resources a pass goes through are exactly the listed ones with these four facts |
| Cleanup.AdapterExactly | internal/cli/root.go:1541-1575 | the providers that can be asked are gcp, lambda and the China clouds, each through its own adapter |
| Cleanup.RequestedOnFields | internal/cli/root.go:1453-1460 | a canceled row has the state canceled for gcp and terminating for lambda and the China clouds, the time of the pass and its stamp in the metadata, and nothing else is changed |
| Cleanup.RequestedStateIsInactive | internal/cli/root.go:1495-1592 | a provider has a cleanup adapter exactly when the state recorded after cancelling is inactive |
| Cleanup.WhatStaysEligible | internal/cli/root.go:1437-1502 | after a pass, complete or not, the remaining eligible resources are exactly those it did not cancel, in the same order |
| Cleanup.EachCanceledOnce | internal/cli/root.go:1437-1502 | any number of passes, stopped anywhere, cancel the eligible resources from the first on, each once |
| Cleanup.SecondPassCancelsNothing | internal/cli/root.go:1437-1502 | after a completed pass the next one cancels nothing |
| Redaction.FromEnvironment | internal/redact/redact.go:22-47 | collects exactly the long enough values of secret keys, each once, longest first |
| Redaction.SecretsExactly | internal/redact/redact.go:22-38 | these are the values of at least six characters after the first "=" of a variable with a secret key, or under a secret key in a map |
| Redaction.RedactString | internal/redact/redact.go:147-153 | replaces the secrets one after another, then rewrites URI references |
| Redaction.ReferencesRewrittenExactly | internal/redact/redact.go:120-127 | references are rewritten exactly when the replacements leave a scheme mark |
| Redaction.ReplaceCreatesNothing | internal/redact/redact.go:147-153 | one replacement creates no occurrence of a string that cannot touch the replacement's ends |
| Redaction.NoSecretSurvives | internal/redact/redact.go:39-46 | for such secrets and texts without URIs the result contains no secret and no scheme mark, and redacting again changes nothing |
| Redaction.LeakFreeExactly | internal/redact/redact.go:147-153 | secrets without brackets never survive in any such text exactly when none of them is a part of the word REDACTED |
| Redaction.SingleSecretExactly | internal/redact/redact.go:147-153 | one secret that does not overlap itself never survives its own replacement, in any text, exactly when it cannot touch the replacement |
| Redaction.BracketSecretCanLeak | internal/redact/redact.go:147-153 | a secret with a bracket can reappear from the text before a match and the replacement |
| Redaction.WholeSecretReplaced | internal/redact/redact.go:39-46 | because longer secrets come first, a secret standing alone is replaced as a whole even when it contains another |
| Redaction.SanitizeKeepsPlainText | internal/redact/redact.go:120-123 | a text without a scheme mark is left alone |
| PathRewrite.ReplacePathToken | internal/runtimeprep/local.go:202-226 | equals the specification that replaces exactly the scanned occurrences with a separator or nothing on both sides (`IsToken`, on the characters) |
| PathRewrite.TokensMembers | internal/runtimeprep/local.go:202-245 | the replaced occurrences are exactly those |
| PathRewrite.SingleOccurrence | internal/runtimeprep/local.go:202-245 | a text in which the needle occurs once is changed exactly when each of the eighteen separators, or nothing, stands on either side of it |
| PathRewrite.LongerNameStays | internal/runtimeprep/local.go:228-245 | an occurrence next to a letter, digit, hyphen, underscore or dot stays |
| PathRewrite.DatabaseStays | internal/runtimeprep/local.go:228-245 | "/workspace/database" is not under the mount "/workspace/data" |
| PathRewrite.SelfReplacementIsIdentity | internal/runtimeprep/local.go:202-226 | replacing a token by itself changes nothing |
| PathRewrite.ReplacedLength | internal/runtimeprep/local.go:202-226 | each replaced token changes the length by the difference of the two |
| PathRewrite.AllTokensReplacedExactly | internal/runtimeprep/local.go:202-245 | every occurrence on path boundaries is replaced in every text exactly when the needle does not overlap itself after a boundary character |
| PathRewrite.OverlappingMountIsMissed | internal/runtimeprep/local.go:202-245 | a mount under the workspace that repeats a path after a colon is missed in a text that repeats it once more |
| PathRewrite.ExchangeSort | internal/runtimeprep/local.go:78-84 | sorts the mounts in place, a permutation in non-increasing length |
| PathRewrite.RewriteValue | internal/runtimeprep/local.go:72-89 | rewrites every mount once, longer mounts first |
| PathRewrite.MountBecomesHostPath | internal/runtimeprep/local.go:72-89 | so a value that is a mount, or the mount, a slash and more, moves to the mount's host path also when shorter mounts are parts of it, provided no longer mount is a token of the value and no other mount one of the result |
| PathRewrite.FileUnderMount | internal/runtimeprep/local.go:72-89 | "/workspace/data/train.csv" moves with the data mount although the workspace is mounted as well |
| Shell.ShellCommand | internal/provider/lambda/cloudinit.go:108-121 | quotes each argument and joins them with blanks |
| Shell.SingleQuotedBody | internal/provider/chinacloud/vm_runtime.go:764-777 | a reader inside single quotes takes the quoted body back as the value |
| Shell.ShellRoundTrip | internal/provider/lambda/cloudinit.go:108-121 | a reader following sections 2.2.2, 2.2.3 and 2.3 of the POSIX.1-2017 Shell Command Language reads the line back as exactly the arguments, if and only if no argument contains NUL |
| Shell.CloudInitUserData | internal/provider/lambda/cloudinit.go:19-35 | the document is the header, the indented lines of the script, and the footer |
| Shell.DocumentText | internal/provider/lambda/cloudinit.go:19-35 | the document writes the script, each line behind six blanks, to the file that it then runs |
| Shell.ScriptRoundTrip | internal/provider/lambda/cloudinit.go:27-31 | removing the indentation from the block of the document recovers the script, whatever it contains |
| EnvKeys.InputEnvKey | internal/staging/staging.go:66-82 | the key is the name's words in upper case, joined by single underscores |
| EnvKeys.KeysAreNeat | internal/staging/staging.go:66-82 | no key begins or ends with an underscore or has two together; an ASCII name with a letter or digit has a key the reader's pattern admits |
| EnvKeys.KeyOfName | internal/staging/staging.go:66-82 | a name of ASCII letters and digits is its key in upper case, and any other ASCII character between two names becomes one underscore between their keys |
| EnvProtocol.RuntimeEnv | internal/staging/staging.go:11-37 | writes the prefix variables and folds in the exported inputs in order |
| EnvProtocol.DiscoverInputs | runtime/container/switchboard_materialize_data.py:39-50 | sorts by key what the variables yield one by one |
| EnvProtocol.WriterLeaves | internal/staging/staging.go:23-35 | for each key the map holds the last source and the last mount of the exported inputs with that key, under SWITCHBOARD_DATA_ with the key and _URI or _MOUNT |
| EnvProtocol.PrefixesAreLeft | internal/staging/staging.go:13-22 | each configured prefix is in the map under its new and its old name, whatever the inputs are, and only when it is configured |
| EnvProtocol.AdmittedExactly | runtime/container/switchboard_materialize_data.py:17-17 | the pattern admits exactly the source variables whose key is of capital letters, digits and underscores, also with one line feed behind the name |
| EnvProtocol.MatchesNothingElse | runtime/container/switchboard_materialize_data.py:17-17 | a name without a final line feed that the pattern admits is the source variable of its key, never a mount or prefix variable |
| EnvProtocol.ReaderFindsWhatWriterLeft | runtime/container/switchboard_materialize_data.py:39-50 | the reader, given the writer's map in any order, finds exactly the triples the map stands for, strictly sorted by key |
| EnvProtocol.RoundTripExactly | internal/staging/staging.go:11-37 | inputs with sources and mounts all survive the trip exactly when every key is admitted and no two inputs share a key without agreeing; nothing else is found |
| EnvProtocol.CollidingNamesMerge | internal/staging/staging.go:66-82 | of two inputs named a-b and a.b the first is lost |
| EnvProtocol.AsciiRoundTrip | runtime/container/switchboard_materialize_data.py:39-50 | ASCII names with distinct keys come back as exactly the inputs, sorted by key |

## Left out

- HTTP and gRPC clients, request signing, SSH, Docker, SQLite, the file system, clocks and credentials: foreign calls; their answers are parameters.
- Commands, reports, prompts, configuration defaults, state-name and error-kind mapping tables: user interface and one-branch lookups.
- URI parsing and rewriting, JSON event parsing, the test for secret keys and the redaction of one log line: library behaviour, parameters of the model.
- Store failures, process crashes and two orchestrators on one run: store calls succeed here and identifiers never collide.
- Failover.RunAttempts: the summaries it writes and the redaction of the reasons it stores are not modelled; stored messages are told apart by kind, not by text.
- Failover.Choose: the provider of the configuration is either "auto" or a name; the scheme test of a fixed provider cuts the URI at its scheme mark, that of routing parses the URI, and both are modelled as the code has them.
- Redaction.FromEnvironment: the library sort of the secrets is not stable; a stable one stands for it, and equal lengths keep any order.
- Failover.DuringSubmit: the resource callbacks of a submission are modelled in `Resources`, its log and instance in `Monitor` and `Lifecycle`.
- Routing.Select: prices and estimates are real numbers, without rounding, infinities or NaN; the product of expected steps does not overflow.
- GcpInventory.EnrichHardwareShapes: the catalogue that names machine families and quota metrics is a parameter.
- Lifecycle.Instance.Submit: the texts of log lines and errors are not modelled.
- The China adapter's log tail consumes partial lines, so the line-level claims are about the Lambda adapter; its lifecycle is modelled.
- Shell.ShellRoundTrip: a line with an operator, an expansion or a comment outside quotes is not a plain list of words for the reader; reserved words and aliases are not modelled.
- Shell.CloudInitUserData: only the indentation of the block is modelled; how a YAML parser detects it and treats the line ends at the end of a block is not.
- EnvProtocol.RuntimeEnv: the values of the four prefix variables are given as joined URIs; variables that the job itself sets are not part of the map.
- EnvKeys.InputEnvKey: letters, digits and upper case outside ASCII are a parameter, of which only is assumed that no upper case is an underscore.
- Cleanup.CleanUp: the rows are those of the listing when a pass starts; nobody else writes them during the pass.
- Staging of bundled inputs, the file of environment variables on the instance, and job preparation: their loops copy files or add variables one by one.
