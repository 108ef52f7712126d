# A verified model of the pull-request reviewer

The system reviews GitHub pull requests. A hosted control plane keeps a table of review jobs
and leases them to workers and to paired runners. A runner executes a resumable workflow, packs
the diff into a token budget, asks a model for findings, checks and merges them, posts one
review and acknowledges the job. This project models the parts where the system promises
something about whole runs and proves those promises for every input, run or reachable state.
`dafny verify dfyconfig.toml` checks all of it.

How the modules are arranged:

- **Job leases** (`Registry`, `ReviewJobs`, `ReviewJobStore`, `LeaseFencing`, `JobAccounting`,
  `AckReplay`, `JobLifecycle`). `ReviewJobs` gives one function per SQL transaction over a
  database value with a clock and a log of events; `ReviewJobStore.Store` is the class that updates
  the rows in place and is proved equal to those functions. The other modules prove invariants over any sequence
  of transactions.
- **Runner** (`Runner`, `RunnerOutcomes`, `RunnerDaemon`). The daemon and its two local tables
  composed with the hosted database. Before and between the runner's calls any transactions of other actors may
  happen, the credential may be revoked, and any request or reply may be lost.
- **Workflow** (`Workflow`, `WorkflowEngines`, `WorkflowRuns`, `WorkflowChecks`). Both engines as
  sequences of effects on one store, with a bound on the effects a process performs before it dies.
- **Diff pipeline** (`Decimal`, `DiffText`, `DiffAgreement`, `DiffMethods`, `EditScripts`,
  `Packing`, `PackingOrder`, `PackingRange`, `ReviewPipeline`, `Posting`). Text is a sequence of
  characters, including line splitting and decimal printing and parsing; `EditScripts` tells what the
  pipeline shows and counts in terms of the old and new texts a patch was made from.
- **Pairing and budget** (`Pairing`, `PairingRuns`, `PairingAnswers`, `PairingStore`, `RepositoryBudget`).
- **Kernels** (`BlastRadius`, `Aggregation`, `AggregationOrder`, `Matching`, `PromptBoundaries`,
  `Redaction`, `TraceMerge`, `TraceSpans`). `Common` and `Ordering` hold shared definitions.

Code that updates state is a class or a method with loops whose `ensures` ties it to a
specification function; the theorems are lemmas about those functions.

Where a plausible promise is false of the code, the model keeps the code and proves the exact
condition:

- An acknowledge call whose credential is refused (401) raises out of `complete_job` before
  anything is recorded, so that result is lost: `Runner.EscapesExactlyWhenRefused`,
  `Runner.RefusedResultIsLost`.
- A manual requeue looks only at the head's unique index, so a pull request can get two active
  jobs: `JobAccounting.OneActiveExactly`, `JobAccounting.OnlyLatestExactly`,
  `JobAccounting.RequeueMakesTwoActive`.
- A replayed acknowledgement is refused once a requeue or a pushed summary overturned the landed
  one: `AckReplay.ReplayOfLandedAck`.
- A deleted or context line that starts with "NEW " flips the line recoverers into NEW mode:
  `DiffAgreement.RecoveredIsStaticPlusLeaks`, `DiffAgreement.FalseHeaderLeaks`.
- The ten-digit sort key of findings stops ordering at line 10^10: `AggregationOrder.KeyWidthIsTheLimit`,
  `AggregationOrder.KeyWidthMatters`.
- `run` on a stored workflow uses the input it was given, not the stored one, so the outputs may mix
  two inputs: `WorkflowRuns.OtherInputExactly`, `WorkflowRuns.TwoInputsMix`.
- A repository listed twice in an approval makes the pairing code unusable:
  `PairingRuns.RepeatedRepositoryIsNeverExchanged`, `PairingRuns.RepeatedRepositoryRun`.
- A reservation released once cannot be reserved again for the same job, because the row stays and
  the insert violates its primary key: `RepositoryBudget.ReserveAnswers`,
  `RepositoryBudget.ReservingAgainIsRefused`.
- Without a listing of reviews the same review can be accepted twice: `Posting.TwiceWithoutListing`,
  `Posting.AtMostOnceExactly`.
- A file whose first recovered line number is larger than its last makes `pack_diff` raise, because
  the item's contract refuses the range: `PackingRange.PacksExactlyWhen`,
  `PackingRange.InvertedExactlyWhen`, `PackingRange.LeaksOutOfOrderRaise`,
  `PackingRange.BackwardsHunksRaise`.

## Model

| member | source | states |
|---|---|---|
| Registry.AuthorizeRepository | src/pr_reviewer/control_plane/repository_policy.py:182-236 | granted exactly when the installation is known and not revoked, the runner is active and the repository is assigned to it; each reason of a denial exactly when its check is the first to fail |
| LeaseFencing.EntryPointsAgree | src/pr_reviewer/control_plane/token_broker.py:58-84 | heartbeat renews, acknowledge changes the database and the token broker issues under live authorization, each exactly while the same lease holds |
| LeaseFencing.LeaseIsLatestClaim | src/pr_reviewer/control_plane/runner_jobs.py:122-308 | in every reachable database a (runner, token) pair holds the lease exactly when the job's latest claim minted it and the row is running and unexpired |
| LeaseFencing.RunKeepsFenced | src/pr_reviewer/jobs/claim_review_job.py:46-91 | every transaction sequence keeps holder and token hash tied to the latest claim, although worker claims leave the old hash behind |
| LeaseFencing.ApplyOpensOnlyFreshTokens | src/pr_reviewer/control_plane/runner_jobs.py:160-203 | no transaction opens a lease for a token handed out before |
| LeaseFencing.ClosedLeaseStaysClosed | src/pr_reviewer/control_plane/runner_jobs.py:206-308 | a minted pair that does not hold the lease never holds it again |
| AckReplay.TakenAwayForever | src/pr_reviewer/control_plane/runner_jobs.py:206-308 | after expiry, re-claim, supersede, cancel, requeue, pushed summary or acknowledgement, in any continuation, an earlier pair renews nothing, gets no token and changes nothing; its acknowledgement is denied unless the pair itself finished the job, and then is answered as a replay exactly until a requeue or pushed summary |
| AckReplay.LostIsDenied | src/pr_reviewer/control_plane/runner_jobs.py:241-275 | a minted pair that neither holds the lease nor finished the job is denied by acknowledge, heartbeat and token issue in every continuation |
| JobAccounting.EventAccounting | src/pr_reviewer/jobs/fail_review_job.py:20-83 | over every run acknowledged events plus one while active never exceed one plus requeues, and at most MAX - 1 retries follow the last requeue |
| JobAccounting.RunKeepsAccounted | src/pr_reviewer/control_plane/runner_jobs.py:241-308 | the inductive invariant behind the accounting holds after every run |
| JobAccounting.AttemptsUnbounded | src/pr_reviewer/jobs/claim_review_job.py:50-80 | for every n some run of takeovers without requeue brings `attempts` to n |
| JobAccounting.OneActiveJob | src/pr_reviewer/jobs/enqueue_review_job.py:16-107 | without manual requeue a pull request has at most one pending or running job, and it is the latest enqueued |
| JobAccounting.RunKeepsOnlyLatest | src/pr_reviewer/jobs/enqueue_review_job.py:65-106 | requeue-free runs keep the invariant that only the latest job is active |
| JobAccounting.OneActiveExactly | src/pr_reviewer/jobs/requeue_review_job.py:12-30 | over every legal run each pull request has at most one pending or running job in every state along it, exactly when every requeue that goes through finds no other active job of its pull request |
| JobAccounting.OnlyLatestExactly | src/pr_reviewer/jobs/requeue_review_job.py:12-30 | and only the latest enqueued one in every state, exactly when every such requeue is of its pull request's latest job |
| JobAccounting.StepKeepsOneActive | src/pr_reviewer/jobs/enqueue_review_job.py:65-106 | from any state with at most one active job per pull request, a step keeps that exactly when it is not a requeue beside another active job |
| JobAccounting.RequeueExactly | src/pr_reviewer/jobs/requeue_review_job.py:12-30 | from any such state a successful requeue keeps at most one active exactly when no other job of the pull request is active; where only latest jobs are active, it keeps that exactly when the requeued job is the latest |
| JobAccounting.RequeueMakesTwoActive | src/pr_reviewer/db/migrations/202608302200_pr_lifecycle.sql:16 | a concrete run in which the unique active-head index lets two jobs of one pull request be active |
| JobAccounting.RedeliveryChangesNothing | src/pr_reviewer/jobs/cancel_review_job.py:17-47 | a delivery id seen once by enqueue or cancel changes nothing when replayed through either, at any later time and with any payload |
| AckReplay.RunKeepsSettled | src/pr_reviewer/control_plane/runner_jobs.py:253-308 | over every run a row succeeded under a runner's token has a successful acknowledgement of that pair in the log, a failed one a failed one, and the log only grows |
| AckReplay.AcceptedIsLogged | src/pr_reviewer/control_plane/runner_jobs.py:241-308 | an accepted acknowledgement, first or replayed, is in the log |
| AckReplay.FinishedUntilOverturned | src/pr_reviewer/control_plane/review_projection.py:514-580 | a finished job stays finished under its token exactly until a requeue or pushed summary overturns it, and then the pair is shut out for good |
| AckReplay.ReplayOfLandedAck | src/pr_reviewer/control_plane/runner_jobs.py:253-275 | a replay after a landed acknowledgement never changes the database and is accepted exactly when nothing overturned the job in between |
| AckReplay.SuccessIsFinal | src/pr_reviewer/control_plane/runner_jobs.py:276-287 | after a successful acknowledgement under the lease no continuation requeues or claims the job again |
| AckReplay.FailureAwaitsRequeue | src/pr_reviewer/control_plane/runner_jobs.py:276-287 | after a failed one the job is not claimable, and a requeue goes through exactly when no other active job has its pull request and head |
| JobLifecycle.StatusOnlyMoves | src/pr_reviewer/jobs/complete_review_job.py:10-36 | the moves of the status column: no transaction changes a status otherwise |
| JobLifecycle.EnqueueSupersedes | src/pr_reviewer/jobs/enqueue_review_job.py:65-106 | a new delivery leaves one claimable new job and no other active one, and a runner at work learns that its lease is gone |
| JobLifecycle.UnknownIsForWorkers | src/pr_reviewer/jobs/enqueue_review_job.py:40-63 | a delivery without a known pull request leaves a job that workers may claim and runners never are given |
| JobLifecycle.CancelTellsTheRunner | src/pr_reviewer/control_plane/runner_jobs.py:223-238 | after a cancel no job of the pull request is active, and the runner at work is answered cancelled |
| JobLifecycle.PushEndsTheJob | src/pr_reviewer/control_plane/review_projection.py:514-580 | a pushed summary stores how the review ended, and the job is never claimed or requeued again |
| JobLifecycle.ClaimLasts | src/pr_reviewer/control_plane/runner_jobs.py:137-172 | a runner's claim holds for 300 seconds and not longer, until then the job is not claimable |
| JobLifecycle.WorkerClaimLasts | src/pr_reviewer/jobs/claim_review_job.py:46-91 | so does a worker's claim, and it can be renewed exactly that long |
| JobLifecycle.RenewalLasts | src/pr_reviewer/jobs/renew_review_job_lease.py:11-38 | a renewal starts the 300 seconds again |
| JobLifecycle.HeartbeatLasts | src/pr_reviewer/control_plane/runner_jobs.py:206-238 | so does a heartbeat |
| JobLifecycle.ClaimsSpareHeldLeases | src/pr_reviewer/jobs/claim_review_job.py:53-61 | no claim takes a lease that is held |
| JobLifecycle.ClaimIsAuthorized | src/pr_reviewer/control_plane/token_broker.py:58-84 | a token is issued for a claimed job exactly when its installation is known and not revoked |
| JobLifecycle.AcknowledgementStores | src/pr_reviewer/control_plane/runner_jobs.py:276-308 | an acknowledgement stores the outcome and error class, ends the lease and changes no other row |
| JobLifecycle.CompletionIsFinal | src/pr_reviewer/jobs/complete_review_job.py:10-36 | only the owner completes a job, which then has succeeded and is never taken up again |
| JobLifecycle.FailureRetriesTwice | src/pr_reviewer/jobs/fail_review_job.py:34-76 | only the owner fails a job; before the third attempt it is claimable again exactly from 60 seconds on, at the third it is dead; the error is kept |
| JobLifecycle.RequeueStartsOver | src/pr_reviewer/jobs/requeue_review_job.py:12-30 | a requeued job has no attempts, error or owner and is claimable at once; no other row changes |
| ReviewJobStore.Store.EnqueueReviewJob | src/pr_reviewer/jobs/enqueue_review_job.py:16-107 | the delivery, supersede and insert statements together perform the `Enqueue` step with the same answer |
| ReviewJobStore.Store.UpdateActive | src/pr_reviewer/jobs/enqueue_review_job.py:65-76 | the row-by-row update sets the status of exactly the active rows of the pull request |
| ReviewJobStore.Store.CancelReviewJob | src/pr_reviewer/jobs/cancel_review_job.py:17-47 | performs the `Cancel` step with the same answer |
| ReviewJobStore.Store.NextJob | src/pr_reviewer/jobs/claim_review_job.py:53-61 | picks an unlocked candidate that is no later than any unlocked one by available_at and then created_at, and none exactly when all are locked |
| ReviewJobStore.Store.ClaimReviewJob | src/pr_reviewer/jobs/claim_review_job.py:46-91 | claims an eligible, unlocked, earliest row by the `WorkerClaim` step, or changes nothing when every eligible row is locked |
| ReviewJobStore.Store.ClaimJob | src/pr_reviewer/control_plane/runner_jobs.py:122-203 | claims an eligible, unlocked, earliest row by the `RunnerClaim` step, or changes nothing; an active runner gets none only when all its rows are locked |
| ReviewJobStore.Store.HeartbeatJob | src/pr_reviewer/control_plane/runner_jobs.py:206-238 | performs the `Heartbeat` step with the same lease answer |
| ReviewJobStore.Store.AcknowledgeJob | src/pr_reviewer/control_plane/runner_jobs.py:241-308 | performs the `Acknowledge` step with the same answer |
| ReviewJobStore.Store.RenewReviewJobLease | src/pr_reviewer/jobs/renew_review_job_lease.py:11-38 | performs the `WorkerRenew` step with the same answer |
| ReviewJobStore.Store.CompleteReviewJob | src/pr_reviewer/jobs/complete_review_job.py:10-36 | performs the `WorkerComplete` step with the same answer |
| ReviewJobStore.Store.FailReviewJob | src/pr_reviewer/jobs/fail_review_job.py:20-83 | performs the `WorkerFail` step, retry or dead by attempts, event included |
| ReviewJobStore.Store.RequeueReviewJob | src/pr_reviewer/jobs/requeue_review_job.py:12-30 | performs the `Requeue` step; the unique index refuses it when the head already has an active job |
| ReviewJobStore.Store.SavePushedReviewSummary | src/pr_reviewer/control_plane/review_projection.py:514-580 | performs the `Push` step on the job row |
| Runner.NoResultIsLost | src/pr_reviewer/runner/daemon.py:149-222 | under every loss and interleaving each result handed to `complete_job` is pending, or acknowledged by this runner in the hosted log, or released after a re-claim answered denied, no job or another job, or escaped on a refused credential |
| Runner.EscapesExactlyWhenRefused | src/pr_reviewer/runner/client.py:72-80 | the escape happens exactly when request and reply arrive and the credential is not accepted |
| Runner.RefusedResultIsLost | src/pr_reviewer/runner/daemon.py:166-181 | a run from a fresh runner, revoked between review and acknowledge, that ends with the result escaped, in no table and never acknowledged |
| Runner.LostReplyIsRecovered | src/pr_reviewer/runner/daemon.py:183-194 | replaying a landed acknowledgement clears the entry, completes the local job and changes nothing hosted, exactly when nothing overturned it; otherwise the entry stays with one more attempt |
| RunnerOutcomes.RecoveredExactly | src/pr_reviewer/runner/daemon.py:149-164 | a job found at start-up whose heartbeat is answered is handed over when the hosted lease is still held, and otherwise abandoned with nothing handed over; an unanswered one stays as it is |
| RunnerOutcomes.RecoverHandsExactly | src/pr_reviewer/runner/daemon.py:149-164 | one recovery hands over, in order, exactly the results of the listed jobs whose lease is held when their turn comes |
| RunnerOutcomes.PollHandsExactly | src/pr_reviewer/runner/daemon.py:118-147 | one poll hands over exactly the result of the job it claims, under that claim's token |
| RunnerOutcomes.RevokedStopsPolling | src/pr_reviewer/runner/daemon.py:126-129 | a runner told that it is revoked polls no more; an unrecognised credential does not stop it |
| RunnerOutcomes.CompleteOutcomes | src/pr_reviewer/runner/daemon.py:166-181 | what `complete_job` leaves for a lost call, a refused credential and an accepted acknowledgement |
| RunnerOutcomes.ReplayOutcomes | src/pr_reviewer/runner/daemon.py:183-194 | a replayed entry goes exactly when the hosted job is held or finished under its token, and otherwise counts one more attempt |
| RunnerOutcomes.ReclaimLandsResult | src/pr_reviewer/runner/daemon.py:196-216 | a result denied for an expired lease lands through a re-claim under the new token, with its own success or failure |
| RunnerOutcomes.LandGivesUp | src/pr_reviewer/runner/daemon.py:196-222 | a re-claim that does not give the job back drops its entries and completes it locally, stops new work when revoked, and records another job it was given |
| RunnerOutcomes.PollRecordsClaim | src/pr_reviewer/local_store/sqlite.py:98-121 | a claimed job is recorded with its token, a known one stays as it is |
| RunnerOutcomes.LostThenReplayed | src/pr_reviewer/runner/daemon.py:166-194 | a lost acknowledgement followed by a replay ends with an empty table, the local job completed and the hosted job finished |
| Runner.RunsStaySound | src/pr_reviewer/runner/daemon.py:118-222 | any sequence of the daemon's calls keeps the invariant over ledger, tables and hosted log |
| Runner.LandKeepsSound | src/pr_reviewer/runner/daemon.py:196-216 | landing a pending result under a fresh claim keeps the invariant |
| Runner.CompleteJobKeepsSound | src/pr_reviewer/runner/daemon.py:166-181 | completing a job keeps the invariant for every outcome of the call |
| Runner.ReplayKeepsSound | src/pr_reviewer/runner/daemon.py:183-194 | replaying any listed entries of the table keeps the invariant |
| Runner.RecoverKeepsSound | src/pr_reviewer/runner/daemon.py:149-164 | recovery of claimed jobs keeps the invariant |
| Runner.ProcessOnceKeepsSound | src/pr_reviewer/runner/daemon.py:118-132 | one poll keeps the invariant |
| RunnerDaemon.Daemon.Claim | src/pr_reviewer/runner/client.py:42-52 | the claim call leaves the composed state and reply that the lossy network step gives |
| RunnerDaemon.Daemon.Heartbeat | src/pr_reviewer/runner/client.py:54-70 | likewise for heartbeat |
| RunnerDaemon.Daemon.Acknowledge | src/pr_reviewer/runner/client.py:72-80 | likewise for acknowledge, with denial, transport error and refused credential kept apart |
| RunnerDaemon.Daemon.RecordPending | src/pr_reviewer/local_store/sqlite.py:400-414 | adds one row with a new id and leaves the others |
| RunnerDaemon.Daemon.ResolveAll | src/pr_reviewer/local_store/sqlite.py:416-426 | deleting the listed rows one by one removes exactly the job's rows |
| RunnerDaemon.Daemon.MarkPendingTerminal | src/pr_reviewer/runner/daemon.py:218-222 | removes the job's pending rows and marks the local job completed |
| RunnerDaemon.Daemon.LandPendingResult | src/pr_reviewer/runner/daemon.py:196-216 | re-claim, compare, acknowledge and resolve perform the `Land` step |
| RunnerDaemon.Daemon.CompleteJob | src/pr_reviewer/runner/daemon.py:166-181 | performs the `CompleteJob` step, raising exactly when it does |
| RunnerDaemon.Daemon.ReplayEntry | src/pr_reviewer/runner/daemon.py:185-194 | performs one replay and keeps row ids distinct |
| RunnerDaemon.Daemon.ReplayPendingAcknowledgements | src/pr_reviewer/runner/daemon.py:183-194 | the loop over the table as listed at the start performs `Replay`, stopping at an exception |
| RunnerDaemon.Daemon.RecoverEntry | src/pr_reviewer/runner/daemon.py:149-164 | performs one recovery and keeps row ids distinct |
| RunnerDaemon.Daemon.Recover | src/pr_reviewer/runner/daemon.py:149-164 | the loop over the claimed jobs listed at the start performs `Recover` |
| RunnerDaemon.Daemon.ReviewClaimed | src/pr_reviewer/runner/daemon.py:142-147 | executes a claimed job and completes it |
| RunnerDaemon.Daemon.ProcessOnce | src/pr_reviewer/runner/daemon.py:118-132 | performs the `ProcessOnce` step |
| BlastRadius.BlastRadius | src/pr_reviewer/retrieval/code_graph.py:41-71 | returns exactly the symbols with a walk of 1 to depth counting edges into the symbol, each once, in order of shortest distance, on any graph |
| BlastRadius.BuildInbound | src/pr_reviewer/retrieval/code_graph.py:41-51 | the inbound table lists exactly the sources of counting edges, and the known set exactly nodes and edge ends |
| BlastRadius.Next | src/pr_reviewer/retrieval/code_graph.py:58-70 | one turn of the search keeps its invariant and shrinks what is left |
| BlastRadius.WithinReachIsFound | src/pr_reviewer/retrieval/code_graph.py:55-71 | a finished search found every symbol within reach, at its distance or nearer |
| BlastRadius.ReachByEdges | src/pr_reviewer/retrieval/code_graph.py:41-71 | each step of reach follows one extracted call or re-export backwards; a depth below one reaches nothing |
| Aggregation.OneOutputPerComponent | src/pr_reviewer/reviewer/aggregate_findings.py:56-98 | clusters hold each finding once and are the connected components of overlap per file and category; each output has the span, evidence union, gravest severity and last text of its cluster; outputs are disjoint and ordered |
| Aggregation.ClusterIsComponent | src/pr_reviewer/reviewer/aggregate_findings.py:26-29 | membership in a cluster is exactly linkage by a chain of overlaps |
| Aggregation.MergeSummarises | src/pr_reviewer/reviewer/aggregate_findings.py:45-53 | a merged finding spans its cluster, carries the evidence union sorted without repeats, is critical exactly when a member is, high exactly when one is and none is critical, and so on, and has the last title and rationale of that severity |
| Aggregation.MergeTakesFirst | src/pr_reviewer/reviewer/aggregate_findings.py:45-53 | of members tied in severity, title and rationale the first lends the remaining fields |
| Aggregation.AggregateTwice | src/pr_reviewer/reviewer/aggregate_findings.py:56-98 | aggregating an aggregate changes nothing |
| AggregationOrder.PlaceItem | src/pr_reviewer/reviewer/aggregate_findings.py:69-83 | the search loop places an item in the first cluster it joins, else in a new one |
| AggregationOrder.BuildClusters | src/pr_reviewer/reviewer/aggregate_findings.py:69-83 | the outer loop builds the specified clusters |
| AggregationOrder.AggregateFindings | src/pr_reviewer/reviewer/aggregate_findings.py:56-98 | the program's loops compute the function the theorems speak of |
| AggregationOrder.InputOrderIrrelevant | src/pr_reviewer/reviewer/aggregate_findings.py:32-42 | path, category, range, evidence, severity, title, rationale and output order do not depend on input order |
| AggregationOrder.KeyWidthIsTheLimit | src/pr_reviewer/reviewer/aggregate_findings.py:32-42 | outputs of one file and category are disjoint for all findings that start below line n if and only if n is at most 10^10 |
| AggregationOrder.KeyWidthMatters | src/pr_reviewer/reviewer/aggregate_findings.py:32-42 | the input at line 10^10 for which two outputs of one file and category overlap |
| Decimal.PrintParse | src/pr_reviewer/reviewer/hunk_format.py:53-70 | parsing a printed number gives it back |
| Decimal.PadOrder | src/pr_reviewer/reviewer/aggregate_findings.py:32-42 | zero-padded keys order and identify numbers below 10^width |
| DiffText.SplitOfJoin | src/pr_reviewer/reviewer/hunk_format.py:19-29 | splitting joined lines gives them back, one trailing empty line aside |
| DiffAgreement.NumberedReads | src/pr_reviewer/reviewer/hunk_format.py:53-70 | a printed line reads back as its number and never as a header |
| DiffAgreement.RecoveredIsStaticPlusLeaks | src/pr_reviewer/reviewer/review_pull_request.py:115-130 | numbers recovered from the rendering are the patch's new-side numbers plus the leaks of false headers; both agree exactly when each leak is a changed line |
| DiffAgreement.RecoveredIsStatic | src/pr_reviewer/github/post_review.py:160-175 | without an old-side line beginning with "NEW " recovered and static numbers are equal |
| DiffAgreement.FalseHeaderLeaks | src/pr_reviewer/reviewer/hunk_format.py:19-70 | after any header a deleted "NEW " line and a deleted line that looks like line m make m recovered while nothing changed |
| DiffAgreement.AnyNumberLeaks | src/pr_reviewer/reviewer/review_pull_request.py:115-130 | for every path and number a concrete deleting patch of which the recoverers report that number |
| EditScripts.SidesAreTexts | src/pr_reviewer/reviewer/hunk_format.py:53-70 | the two sides of a rendered hunk are its new text numbered from the start, and its old text |
| EditScripts.PatchParses | src/pr_reviewer/reviewer/hunk_format.py:32-50 | a patch printed from any hunks parses to them |
| EditScripts.RenderingIsTrue | src/pr_reviewer/reviewer/hunk_format.py:19-29 | the rendering shows, per hunk, the file, the numbered new text, the previous name and the old text |
| EditScripts.StaticIsTrue | src/pr_reviewer/verification/static_checks.py:60-74 | the static check counts exactly the places of the new texts |
| EditScripts.RecoveredIsTrue | src/pr_reviewer/reviewer/review_pull_request.py:115-130 | the recoverers read exactly those places, unless an old line begins with "NEW " |
| EditScripts.ChangeSizeIsTrue | src/pr_reviewer/reviewer/diff_budget.py:84-93 | the change size is the number of added and deleted lines, those aside that look like file headers |
| EditScripts.HeaderReadsBack | src/pr_reviewer/reviewer/hunk_format.py:32-50 | every header, with or without counts and whatever follows it, is read as its new start |
| DiffMethods.ParseHunks | src/pr_reviewer/reviewer/hunk_format.py:32-50 | the loop yields the specified hunks |
| DiffMethods.SplitHunk | src/pr_reviewer/reviewer/hunk_format.py:53-70 | the loop yields the numbered new side and the old side |
| DiffMethods.RenderHunks | src/pr_reviewer/reviewer/hunk_format.py:19-29 | the printed text is the one the agreement lemmas speak of |
| DiffMethods.NewSideLines | src/pr_reviewer/reviewer/review_pull_request.py:115-130 | the mode-flag loop collects the recovered numbers |
| DiffMethods.StaticNewSideLines | src/pr_reviewer/verification/static_checks.py:60-74 | the counter loop collects the static new-side numbers |
| Packing.ComputeChangeSize | src/pr_reviewer/reviewer/diff_budget.py:84-93 | counts changed lines, file headers aside |
| Packing.ComputeLineRange | src/pr_reviewer/reviewer/diff_budget.py:146-163 | first and last recovered number of a rendering |
| Packing.RenderItem | src/pr_reviewer/reviewer/diff_budget.py:50-72 | the context item of one file |
| Packing.PackLoop | src/pr_reviewer/reviewer/diff_budget.py:41-73 | the greedy loop computes the specified packing of the ordered files |
| Packing.PackDiff | src/pr_reviewer/reviewer/diff_budget.py:27-81 | sorting and the loop compute the packing the theorems speak of |
| Packing.PackIsMaximalPartition | src/pr_reviewer/reviewer/diff_budget.py:27-81 | files split into kept and dropped as multisets, items are the kept renderings and within budget, each omission has its reason, and none dropped for the budget would still fit |
| PackingOrder.BudgetGoesByRank | src/pr_reviewer/reviewer/diff_budget.py:118-123 | kept files come by sensitivity, then changed lines, then path; a file omitted for the budget did not fit before any lesser file was kept |
| PackingOrder.ReasonsInOrder | src/pr_reviewer/reviewer/diff_budget.py:126-143 | each reason for leaving a file out exactly when its check is the first to hold |
| Packing.InputOrderIrrelevant | src/pr_reviewer/reviewer/diff_budget.py:118-123 | for distinct paths the result does not depend on input order |
| Packing.FitRetrievedChunks | src/pr_reviewer/retrieval/hybrid_search.py:89-102 | the loop selects the specified chunks from what is left |
| PackingOrder.EarlierChunksFirst | src/pr_reviewer/retrieval/hybrid_search.py:89-102 | a chunk is selected exactly when it fits beside those selected before it |
| Packing.CombinedCostWithinBudget | src/pr_reviewer/retrieval/hybrid_search.py:89-102 | packed diff and selected chunks cost no more than the one budget, and no skipped chunk would still fit |
| PackingRange.PacksExactlyWhen | src/pr_reviewer/contracts/review_context.py:38-52 | packing succeeds for every budget and counter exactly when no packable file is rendered with an inverted range |
| PackingRange.InvertedExactlyWhen | src/pr_reviewer/reviewer/diff_budget.py:146-163 | for every patch the range is inverted exactly when the last number of the last hunk that shows one, its last leak or the end of its new side, is below the first number of the first such hunk |
| PackingRange.OrderedHunksPack | src/pr_reviewer/reviewer/diff_budget.py:58-72 | files whose hunks come in file order and whose old sides have no line beginning with "NEW " always pack |
| PackingRange.LeaksOutOfOrderRaise | src/pr_reviewer/contracts/review_context.py:48-52 | file order alone is not enough: one hunk that deletes a "NEW " line and two numbered-looking lines out of order makes packing raise |
| PackingRange.BackwardsHunksRaise | src/pr_reviewer/contracts/review_context.py:48-52 | two hunks out of file order, whatever their starts, make packing raise |
| ReviewPipeline.CandidatesFromParsed | src/pr_reviewer/reviewer/review_pull_request.py:89-112 | the loop accepts the specified drafts, none for a malformed response |
| ReviewPipeline.AcceptedDrafts | src/pr_reviewer/reviewer/review_pull_request.py:89-137 | at most 32 accepted, keys distinct, each on changed lines of an included file; below the limit none acceptable is lost, duplicates aside |
| ReviewPipeline.AcceptedByFields | src/pr_reviewer/reviewer/review_pull_request.py:89-137 | the same in terms of path, range and title: at most 32, no spot twice, all lines shown, and below the limit every offered draft on shown lines has an accepted one at its spot |
| ReviewPipeline.CheckStatic | src/pr_reviewer/verification/static_checks.py:14-57 | each verdict is given exactly under its condition, in the order of the checks |
| ReviewPipeline.AcceptedFile | src/pr_reviewer/reviewer/review_pull_request.py:133-137 | an accepted draft names a packed file whose rendering shows all its lines |
| ReviewPipeline.AcceptedIsAnchored | src/pr_reviewer/github/post_review.py:141-157 | an accepted draft is anchored inline at its first line on the same snapshot, and passes the static line test when no old-side line of the patch begins with "NEW " |
| ReviewPipeline.AcceptedPassExactly | src/pr_reviewer/verification/static_checks.py:34-51 | every draft that can be accepted about a packed file passes the static line test exactly when every leaked line is a changed line |
| Posting.Poster.FindExisting | src/pr_reviewer/github/post_review.py:178-194 | finds the specified earlier review by lookup, then by marker in the listing, or raises when the lookup or the listing does |
| Posting.Poster.PostReview | src/pr_reviewer/github/post_review.py:71-130 | one attempt performs the `Post` step, for every point of failure, with and without lookup, listing and recorder |
| Posting.AcceptedExactlyWhen | src/pr_reviewer/github/post_review.py:71-130 | GitHub accepts a review exactly when the first check finds none, something is public, the head is unmoved and the submission goes through; then it is exactly this attempt's submission |
| Posting.AtMostOnce | src/pr_reviewer/github/post_review.py:178-194 | over any attempts for a key, crashes and timeouts included, at most one review is accepted as long as the listing shows accepted ones |
| Posting.AtMostOnceExactly | src/pr_reviewer/github/post_review.py:88-130 | at most one review is accepted exactly when no attempt of the run comes after an accepted review, sees nothing of it, and has a public submission for the current head that GitHub takes |
| Posting.OnePlusRepetitions | src/pr_reviewer/github/post_review.py:88-130 | the exact count: one review, if any, plus one for each such attempt |
| Posting.TwiceWithoutListing | src/pr_reviewer/github/post_review.py:178-194 | without a listing a timed-out accepted submission is accepted again |
| Posting.PublicIsFilter | src/pr_reviewer/github/post_review.py:133-138 | the submitted findings are exactly those not rejected, not restricted and allowed to be posted, with their multiplicity |
| Posting.PublicOfAppend | src/pr_reviewer/github/post_review.py:133-138 | the filter keeps the order |
| Posting.BodyReadsBack | src/pr_reviewer/github/post_review.py:197-198 | reading a posted body by lines gives the marker and the public titles in order |
| Posting.PostAnswers | src/pr_reviewer/github/post_review.py:88-130 | when a call answers an earlier review, nothing to post, or a moved head, exactly; none of these changes anything |
| Posting.ExistingCarriesKey | src/pr_reviewer/github/post_review.py:178-194 | an earlier review is the recorded one, or a listed one that carries the marker of the key |
| Posting.MarkersDiffer | src/pr_reviewer/github/post_review.py:197-198 | different keys have different markers |
| Posting.RecordedIsReturned | src/pr_reviewer/github/post_review.py:88-130 | a posted and recorded review is what every later call that consults the record answers |
| Posting.CommentsOnDiffLines | src/pr_reviewer/github/post_review.py:141-157 | every inline comment is a submitted finding's title at its first line, on a line its patch shows |
| Posting.PostedIsComplete | src/pr_reviewer/github/post_review.py:112-127 | a posted review is marked as a summary alone exactly when no postable finding stands on the diff |
| Posting.PostedFrom | src/pr_reviewer/github/post_review.py:112-127 | a posted review keeps what GitHub answered, fills in what the answer leaves empty, and is recorded under its key |
| Workflow.EnginesAgree | src/pr_reviewer/workflow/langgraph_engine.py:101-173 | both engines give the same result, store and effect sequence for every store, every answer of every callable and every moment of death |
| Workflow.HaltedNodesPass | src/pr_reviewer/workflow/langgraph_engine.py:128-154 | once halted, the remaining nodes do nothing |
| WorkflowChecks.EveryHandlerIsChecked | src/pr_reviewer/workflow/simple_engine.py:130-147 | on both engines each handler call comes right after a head answered as reviewed and a lease answered active, where these are given |
| WorkflowChecks.EveryHandlerIsRecorded | src/pr_reviewer/workflow/simple_engine.py:119-125 | on both engines each handler call is followed by the recording of its output under its step and then by its event |
| WorkflowChecks.MovedHeadStops | src/pr_reviewer/workflow/langgraph_engine.py:156-173 | a moved head stores and returns cancelled as superseded, with no handler call and exactly these questions asked |
| WorkflowChecks.CancelledLeaseStops | src/pr_reviewer/workflow/langgraph_engine.py:156-173 | a cancelled lease stores and returns cancelled |
| WorkflowChecks.LostLeaseStops | src/pr_reviewer/workflow/langgraph_engine.py:156-173 | a lost lease stores and returns failed as invalid or expired |
| WorkflowRuns.CompletedStepsAreAPrefix | src/pr_reviewer/workflow/store.py:65-83 | after any calls the completed steps are a prefix of the step list, all of it if completed |
| WorkflowRuns.CrashesDoNotShow | src/pr_reviewer/workflow/simple_engine.py:101-128 | with deterministic handlers the stored outputs after any deaths and resumes are those of an uninterrupted run up to that step |
| WorkflowRuns.OutcomeIsFinal | src/pr_reviewer/workflow/store.py:85-110 | a set outcome is never left, its outputs never change and every later call answers it |
| WorkflowRuns.CalmResumeCompletes | src/pr_reviewer/workflow/simple_engine.py:66-128 | resuming an open run with an active lease and unmoved head completes it |
| WorkflowRuns.OtherInputExactly | src/pr_reviewer/workflow/simple_engine.py:62-64 | running on with another input gives its uninterrupted outputs exactly when the stored prefix already equals its prefix |
| WorkflowRuns.TwoInputsMix | src/pr_reviewer/workflow/simple_engine.py:62-64 | two runs of one workflow under different heads that complete with outputs of neither |
| WorkflowEngines.Engine.Do | src/pr_reviewer/workflow/store.py:25-95 | an effect is performed, or the process is dead and nothing changes |
| WorkflowEngines.Engine.Check | src/pr_reviewer/workflow/simple_engine.py:130-147 | performs the checkpoint on lease and head |
| WorkflowEngines.Engine.CallHandler | src/pr_reviewer/workflow/simple_engine.py:101-128 | handler call, completion and event in the specified order |
| WorkflowEngines.Engine.AdvanceSimple | src/pr_reviewer/workflow/simple_engine.py:101-128 | the loop over steps performs `SimpleAdvance` |
| WorkflowEngines.Engine.RunNode | src/pr_reviewer/workflow/langgraph_engine.py:128-154 | one node performs `Node` |
| WorkflowEngines.Engine.AdvanceGraph | src/pr_reviewer/workflow/langgraph_engine.py:101-126 | the chain of nodes performs `GraphAdvance` |
| WorkflowEngines.Engine.Run | src/pr_reviewer/workflow/simple_engine.py:62-64 | `run` on either engine is the run call of the whole-run theorems |
| WorkflowEngines.Engine.Resume | src/pr_reviewer/workflow/simple_engine.py:66-128 | `resume` on either engine is the resume call of the whole-run theorems |
| Matching.MatchFindings | src/pr_reviewer/evals/match_findings.py:49-76 | the popping loop computes the specified greedy matching |
| Matching.FindNearMiss | src/pr_reviewer/evals/match_findings.py:39-76 | true exactly when some unmatched label nearly misses some leftover finding |
| Matching.MatchIsMaximal | src/pr_reviewer/evals/match_findings.py:49-76 | both inputs are split as multisets, every pair matches, and no unmatched label matches a leftover |
| Matching.AtLeastHalfOptimal | src/pr_reviewer/evals/match_findings.py:49-76 | no matching whatsoever has more than twice as many pairs |
| Matching.HalfIsTight | src/pr_reviewer/evals/match_findings.py:30-36 | for every n, inputs of 2n labels and 2n findings on which greedy finds n pairs and another matching 2n |
| Matching.RatesAreFractions | src/pr_reviewer/evals/metrics.py:13-59 | every precision, recall and rate lies in [0, 1] |
| Matching.PrecisionAndRecall | src/pr_reviewer/evals/metrics.py:27-59 | on matcher output precision divides by all findings and recall by all labels |
| Matching.MatchMeans | src/pr_reviewer/evals/match_findings.py:26-36 | a label matches a finding exactly when concern, file and category agree and they share a line |
| Matching.HumanAskedExactly | src/pr_reviewer/evals/match_findings.py:39-76 | a human is asked exactly when an unmatched label and a leftover finding differ only in the file |
| Matching.FullRates | src/pr_reviewer/evals/metrics.py:19-59 | each rate per case is 1 exactly when every case qualifies |
| Matching.FalseFindings | src/pr_reviewer/evals/metrics.py:38-50 | false findings are the reported ones that matched no label |
| Pairing.UpsertAllRegisters | src/pr_reviewer/control_plane/pairing.py:78-92 | every approved repository gets a row, existing rows keep their ids and no other table changes |
| PairingRuns.AssignAllExactly | src/pr_reviewer/control_plane/repository_policy.py:140-179 | the assignments all go through exactly when nothing is listed twice and nothing is held, and then add exactly those |
| PairingRuns.ExchangeAnswers | src/pr_reviewer/control_plane/pairing.py:171-231 | when each answer is given, exactly; a refused exchange changes nothing |
| PairingRuns.StatusPredictsExchange | src/pr_reviewer/control_plane/pairing.py:234-260 | the status is exchangeable exactly when an exchange with the matching proof is not told invalid or expired |
| PairingRuns.ApprovedWithinAccess | src/pr_reviewer/control_plane/pairing.py:103-168 | a granted approval lies inside the verified access |
| PairingRuns.PairingIsSound | src/pr_reviewer/control_plane/pairing.py:59-231 | over every run a code creates at most one runner, a repository has at most one holder who is not revoked, approvals stay inside their access |
| PairingRuns.ExchangeGrantsExactlyApproved | src/pr_reviewer/control_plane/pairing.py:183-231 | the new runner holds exactly the approved repositories and no other runner's change |
| PairingRuns.RepeatedRepositoryIsNeverExchanged | src/pr_reviewer/control_plane/pairing.py:171-231 | an approval with a repeated repository shows exchangeable and is always refused |
| PairingRuns.RepeatedRepositoryRun | src/pr_reviewer/control_plane/pairing.py:103-231 | a run that creates a code and approves it for one repository twice, after which every exchange is refused |
| PairingRuns.RevocationFrees | src/pr_reviewer/control_plane/repository_policy.py:121-137 | after revoking the holder, a redeemable code for its repositories exchanges |
| PairingAnswers.ApproveAnswers | src/pr_reviewer/control_plane/pairing.py:117-144 | each answer of an approval, exactly; a denial changes nothing |
| PairingAnswers.ApprovalStores | src/pr_reviewer/control_plane/pairing.py:146-168 | an approval stores the rows of the requested repositories in order and nothing else of the code |
| PairingAnswers.ExchangeNeeds | src/pr_reviewer/control_plane/pairing.py:186-203 | an exchange gets past the code exactly when it is under ten minutes old, approved, unspent and proven |
| PairingAnswers.StatusAnswers | src/pr_reviewer/control_plane/pairing.py:244-260 | each of the three statuses, exactly |
| PairingAnswers.ExchangeCreatesRunner | src/pr_reviewer/control_plane/repository_policy.py:79-118 | the new runner has the device of the code and the hash of the secret handed out, and the code is spent |
| PairingAnswers.RunKeepsCodes | src/pr_reviewer/control_plane/pairing.py:117-129 | over every run an approval never changes and a code is never renewed |
| PairingAnswers.CodesExpire | src/pr_reviewer/control_plane/pairing.py:186-203 | ten minutes after its creation a code has no status, approval or exchange in any continuation |
| PairingAnswers.SpentStaysSpent | src/pr_reviewer/control_plane/pairing.py:222-225 | an exchanged code is never exchanged again |
| PairingAnswers.CreatedWaits | src/pr_reviewer/control_plane/pairing.py:59-75 | a new code waits for approval under its challenge |
| PairingAnswers.RevokedHoldsNothing | src/pr_reviewer/control_plane/repository_policy.py:121-137 | a revoked runner holds nothing, and nobody else loses anything |
| PairingStore.Store.CreatePairingCode | src/pr_reviewer/control_plane/pairing.py:59-75 | performs the `Create` step |
| PairingStore.Store.ApprovePairingByHash | src/pr_reviewer/control_plane/pairing.py:103-168 | performs the `Approve` step with the same answer |
| PairingStore.Store.UpsertRepositories | src/pr_reviewer/control_plane/pairing.py:78-92 | the loop leaves the specified table and returns the row ids |
| PairingStore.Store.ExchangePairingCode | src/pr_reviewer/control_plane/pairing.py:171-231 | performs the `Exchange` step, with the rollback of a partial assignment |
| PairingStore.Store.PairingStatus | src/pr_reviewer/control_plane/pairing.py:234-260 | answers the status that predicts the exchange |
| PairingStore.Store.RevokeRunner | src/pr_reviewer/control_plane/repository_policy.py:121-137 | performs the `Revoke` step |
| PromptBoundaries.Strip | src/pr_reviewer/security/prompt_boundaries.py:25-31 | the result is marker-free, a subsequence of the text, and the text itself when that is marker-free |
| PromptBoundaries.StripMarkers | src/pr_reviewer/security/prompt_boundaries.py:25-31 | the loop ends on every text with that result and never raises |
| PromptBoundaries.UntrustedMarkersAreGood | src/pr_reviewer/security/prompt_boundaries.py:8-9 | the program's two markers meet what the proofs need |
| PromptBoundaries.WrapHasOnePair | src/pr_reviewer/security/prompt_boundaries.py:34-42 | a wrapped text holds exactly one BEGIN and then one END, for every label and content |
| PromptBoundaries.WrapUntrusted | src/pr_reviewer/security/prompt_boundaries.py:34-42 | the count check never fails |
| PromptBoundaries.WrapReadsBack | src/pr_reviewer/security/prompt_boundaries.py:34-42 | different one-line labels or marker-free contents are wrapped differently |
| PromptBoundaries.WrapUntrustedReviewInputs | src/pr_reviewer/security/prompt_boundaries.py:45-65 | the loops build the specified sections |
| PromptBoundaries.SectionsInOrder | src/pr_reviewer/security/prompt_boundaries.py:45-65 | the sections come in this order under these labels |
| PromptBoundaries.QuotingAlternates | src/pr_reviewer/reviewer/diff_budget.py:96-101 | whatever texts are quoted under whatever labels and whatever files are omitted, the prompt strictly alternates BEGIN and END, one pair for each |
| PromptBoundaries.PromptAlternates | src/pr_reviewer/reviewer/review_pull_request.py:55-66 | the prompt of one review does so, with 3 plus the messages, comments and chunks as its texts |
| PromptBoundaries.ProgramPromptAlternates | src/pr_reviewer/reviewer/review_pull_request.py:26-66 | with the program's own system prompt, markers and reasons no hypothesis is left |
| RepositoryBudget.Ledger.UpsertRepositoryBudget | src/pr_reviewer/control_plane/budget.py:18-36 | performs the `Upsert` step |
| RepositoryBudget.Ledger.ReserveRepositoryBudget | src/pr_reviewer/control_plane/budget.py:39-91 | performs the `Reserve` step with the same outcome |
| RepositoryBudget.Ledger.ReleaseRepositoryReservation | src/pr_reviewer/control_plane/budget.py:94-119 | performs the `Release` step |
| RepositoryBudget.BudgetIsConserved | src/pr_reviewer/control_plane/budget.py:39-119 | over every run reserved tokens and cost are the sums of held reservations and never negative |
| RepositoryBudget.StepWithin | src/pr_reviewer/control_plane/budget.py:18-119 | a step keeps reserved plus spent within the maximum, except an upsert, which does exactly when its maxima cover them |
| RepositoryBudget.UpsertKeepsUse | src/pr_reviewer/control_plane/budget.py:18-36 | an upsert sets the two maxima and leaves what is reserved and spent |
| RepositoryBudget.BudgetStaysWithin | src/pr_reviewer/control_plane/budget.py:39-91 | over every run without such a lowering upsert the maximum is respected |
| RepositoryBudget.OneReservationPerJob | src/pr_reviewer/db/migrations/202609010400_reliability_and_budget.sql:4-23 | over every run a job is granted a reservation at most once, and has a row exactly when it was |
| RepositoryBudget.ReserveAnswers | src/pr_reviewer/control_plane/budget.py:39-91 | after any run, when each of the five answers is given, in terms of the maxima, what is reserved and spent, and whether the job was reserved before; only a granted reservation changes anything |
| RepositoryBudget.ReservingAgainIsRefused | src/pr_reviewer/control_plane/budget.py:94-119 | set a budget, reserve, release: nothing is reserved any more, and reserving again is a constraint violation |
| Redaction.MaskRevealsShape | src/pr_reviewer/observability/trace.py:293-296 | two masks are equal exactly for strings of one length or two non-strings |
| Redaction.RedactionRevealsExactly | src/pr_reviewer/observability/trace.py:299-316 | two nested payloads redact alike exactly when they differ at most under masked keys in values of one shape |
| Redaction.SecretsNeverShow | src/pr_reviewer/observability/trace.py:303-316 | payloads that differ only under secret-looking keys redact alike at both levels |
| Redaction.FieldReads | src/pr_reviewer/observability/trace.py:293-316 | what each field reads as: the mask of a secret, of content at the redacted level, or the value treated the same way inside |
| TraceMerge.BuildChain | src/pr_reviewer/observability/trace.py:226-269 | the loops of both chain builders compute the specified chain |
| TraceMerge.BuildSegments | src/pr_reviewer/observability/trace.py:171-223 | splitting and hanging give the segments the theorems speak of |
| TraceMerge.ReconstructTrace | src/pr_reviewer/observability/trace.py:171-223 | the answer for every combination of missing and present stores |
| TraceMerge.ReconstructAnswers | src/pr_reviewer/observability/trace.py:183-223 | the traces contradict each other exactly when both exist under different ids; which id and which missing origins are reported |
| TraceSpans.EveryEventOnce | src/pr_reviewer/observability/trace.py:171-269 | each event has exactly one segment with its kind, time and redacted payload, all spans differ |
| TraceSpans.LocalBlock | src/pr_reviewer/observability/trace.py:171-223 | local events form one block in sequence order, before it hosted events, after it acknowledgements |
| TraceSpans.ProvenLinks | src/pr_reviewer/observability/trace.py:206-266 | local spans hang below each other, the first acknowledgement below the last of them, and exactly these are marked proven |
| TraceSpans.ParentsClimb | src/pr_reviewer/observability/trace.py:226-269 | each parent link names a present span of strictly lower rank |
| TraceSpans.Root | src/pr_reviewer/observability/trace.py:171-223 | following parents ends at a segment without a parent |
| TraceSpans.RowOrderIrrelevant | src/pr_reviewer/observability/trace.py:226-269 | the order in which the stores return rows does not show |

## Left out

Assumptions:

- SQL engine: each transaction is one atomic step; isolation levels and row locks are not modelled, except that a claim may find any set of rows locked and skips them.
- Cryptography and randomness: hashing is injective, generated tokens, ids and codes are fresh, worker ids differ from runner ids, and a pairing challenge is the hash of some verifier.
- Clocks: time is a number that never decreases; lease arithmetic uses the program's durations.
- LangGraph: the chain runs its nodes in order with the state of the last write; JSON storage is the identity; one engine works on a workflow at a time.
- Deadlines: a step timeout, an exception in a handler and a crash are all the same event, a process that performs no further effect; the deadline of `blast_radius` is such an abort and not modelled.
- Posting: attempts for one key run one after the other and GitHub returns bodies unchanged; trace events of posting are left out.

Not modelled, or modelled in part:

- ReviewJobStore.Store.SavePushedReviewSummary: only the job row; the insertion of findings is left out, because no other step reads them.
- Runner.NoResultIsLost: HTTP statuses other than 401 and 409, recovery of a corrupt local database and the poll loop are left out; the executor is a function.
- PairingStore.Store.ApprovePairingByHash: user ids, display names and capabilities are left out; `assign_repository_to_runner` is reached through the exchange only.
- RepositoryBudget.Ledger.ReserveRepositoryBudget: costs are whole millionths, without rounding or overflow; the status `committed` is never written by this code.
- Packing.PackDiff: sensitivities are reals without NaN, token counts are not negative; the strategy version and the content hash are left out.
- Aggregation.OneOutputPerComponent: category normalisation is a parameter and confidence is a real; line numbers are below 10^10, the width of the sort key.
- Matching.MatchFindings: category normalisation is a parameter.
- DiffAgreement.RecoveredIsStaticPlusLeaks: digits are the ASCII digits; paths hold no line separator.
- Redaction.RedactionRevealsExactly: which keys look secret is a parameter; the regular expressions that decide it are left out.
- HTTP routes, GitHub and model clients, Docker and subprocess calls: I/O only.
- Terminal, web and command-line interfaces and agent surfaces: user interface and dispatch.
- `src/pr_reviewer/local_store/budget.py`: its cost arithmetic is SQLite floating point and printf rounding.
- Worker threads and stop events: scheduling detail without state beyond the job row.
- Circuit policy, runtime mode, routing gate, registries and allowlists: each is settled by one branch or table.
