# Security orchestrator: verified model

A Dafny model of the Python backend of a security-scan orchestrator, with proofs of what its
protocols keep over every run. It covers five connected state machines.

1. **GitHub Checks outbox.** Finished scans leave a row that sweep workers claim under a lease
   and publish to a server that may apply a request without ever acknowledging it. `publish_retry`,
   `checks_client`, `check_identity`, `outbox` and `check_sweep` give the code; `sweep_protocol`
   interleaves any number of sweeps with crashes, lease expiries, replays and foreign runs;
   `sweep_convergence` shows that all of them converge on one Check Run, and `sweep_leases` when there
   is never a second one.
2. **Scan lifecycle.** `scan_tables` specifies the five transactions over runs, tasks, findings and
   publications, `scan_session` implements them table by table, `scan_lifecycle` interleaves them with
   redeliveries and edits, `scan_safety` states what holds in every reachable state, `scan_message`
   follows one queue message through its retries, `scan_publication` joins this machine with the sweeps,
   and `system_convergence` carries their results to the joint runs. `webhook_intake` and `webhook_ledger` do the same for GitHub webhooks and the audit ledger.
3. **Finding history.** `finding_index`, `repository_diff` and `finding_counts` relate a table that
   keeps two run ids per finding to the full history of scans.
4. **Kubernetes execution.** `kubernetes_cluster`, `kubernetes_execution`, `kubernetes_reconciliation`,
   `job_polling` and `log_extraction`.
5. **In-process helpers.** `token_cache` and `event_relay`.

`wrappers` and `set_sizes` hold what several modules share.

`dafny verify dfyconfig.toml` checks everything.

## Assumptions of the model

- A database transaction is one atomic step; unique constraints refuse the statement that violates
  them, and an exception before the commit leaves the committed tables as they were.
- Time never decreases. Identifiers that the code draws as random UUIDs are fresh.
- No two sweeps of one owner name are alive at the same time; once a sweep has ended or crashed, its
  name may come again. A sweep may crash between any two steps; a crash between the claim and the outcome
  write records no attempt.
- Check Run ids increase as runs are created, the pages of one lookup come from one listing, an update
  keeps a run's repository and commit, and an answer with a 4xx status means the request was not applied.
- Repositories and targets are never deleted, and the provider, owner and name of a repository never
  change; default branch, credential and activity may, at any time.
- A queue message may be delivered any number of times, also concurrently.
- Only the intake uses the trigger name `webhook`.
- The names of one scan task's cluster resources are used by one live execution at a time; everything
  else in the namespace may change at any moment. A delete that returns has removed its resource.
- Token minting reads the key file together with its modification time and size, and two key files
  with the same modification time and size are not told apart.
- Scanner output, hashing, signing, JSON parsing and the HTTP and database libraries are parameters.

## Where the code and its documentation differ

The model follows the code.

- The publication port describes its writes as guarded by a claim that the owner still holds; the adapter
  compares the owner column alone. `Outbox.HoldsImpliesClaimed` shows that this is enough.
- The diff's three sets are documented as structurally disjoint. They are for every content exactly when
  the newer run completed after the older one (`RepositoryDiff.RepositoryDiffDisjointIff`), and they are the
  sets they are documented to be exactly when the two were the last to complete, in that order
  (`RepositoryDiff.RepositoryDiffExactIff`). Nothing makes scans complete in the order they were created.
- The split execution is documented to delete its resources always. A delete that raises skips the later
  ones and replaces the result, and the rev-parse Job is deleted only by an execution that runs one. When
  no delete raised, no Job is left exactly when a rev-parse Job ran or none was left over, and whatever a
  delete answered for is gone in any case (`KubernetesExecution.Execute`).
- The token cache is documented to discard every token of a rotated key. A token that was being fetched
  when another call saw the rotation is stored afterwards and served; the worker makes its calls one at a time.
- The final failed transition of a scan is documented as guaranteed. An exception in the load or write-back
  transaction is not caught: the scan is left finished exactly when no write-back raised
  (`ScanMessage.ProcessScanMessage`), and a batch that repeats a fingerprint can leave it running
  (`ScanMessage.RepeatedFingerprintLeavesScanRunning`).
- Retries are documented to update the existing Check Run and never to create a second one. That holds
  for every run exactly when no request is sent after its sweep's lease (`SweepLeases.OneRunIffSentWithinLease`),
  which the code does not check; every later delivery converges on the first run.

## Model
| member | source | states |
|---|---|---|
| PublishRetry.Clamp | backend/src/orchestrator/workers/github_checks_retry.py:90-94 | header guidance, including the special values a header can parse to, always ends between 30 seconds and one hour and is honoured unchanged inside that range |
| PublishRetry.DelayInRange | backend/src/orchestrator/workers/github_checks_retry.py:84-96 | every delay of a first or later attempt lies in [30, 3600] seconds, whatever the error, headers and draw |
| PublishRetry.BackoffInRangeIffCountIncludesFailure | backend/src/orchestrator/workers/github_checks_retry.py:47-65 | the range holds for all draws iff the attempt count already includes the attempt that failed |
| PublishRetry.RetriedIff | backend/src/orchestrator/workers/github_checks_retry.py:47-81 | a failure is retried iff its kind is retryable and fewer than 12 attempts were made; exhausted iff retryable and 12 were |
| PublishRetry.GuidanceHonoured | backend/src/orchestrator/workers/github_checks_retry.py:84-112 | a delay ignores attempt count and draw iff it answers a 429 whose deciding header parses; every other delay is the back-off of a timeout |
| PublishRetry.RetryAfterHonoured | backend/src/orchestrator/workers/github_checks_retry.py:84-112 | a Retry-After of a 429 alone decides: never earlier than asked iff at most an hour was asked for, never later iff at least 30 seconds were |
| PublishRetry.ResetHonoured | backend/src/orchestrator/workers/github_checks_retry.py:84-112 | the same of the time to the rate limit's reset when there is no Retry-After |
| PublishRetry.RetryChainBounded | backend/src/orchestrator/workers/github_checks_retry.py:47-96 | a chain of retried failures has at most 11 links and, without 429 guidance, waits at most 18210 seconds in all |
| PublishRetry.RetryChainBoundAttained | backend/src/orchestrator/workers/github_checks_retry.py:84-96 | some chain of eleven failures waits exactly 18210 seconds, so the bound is tight |
| ChecksClient.PostedMatches | backend/src/orchestrator/infrastructure/github/checks_client.py:137-153 | a create adds the new id to the matches of its own key and changes no other key's matches |
| ChecksClient.PatchedMatches | backend/src/orchestrator/infrastructure/github/checks_client.py:137-153 | updating a match changes nobody's matches and makes that run say exactly what was asked for |
| ChecksClient.MatchingIdsExact | backend/src/orchestrator/infrastructure/github/checks_client.py:101-118 | the collected ids are exactly those of listed runs with the external id |
| ChecksClient.FindExistingCheckRunId | backend/src/orchestrator/infrastructure/github/checks_client.py:78-118 | the paged loop reads page 1, 2, ... and no other until one fails or all are read; a failed page is the answer, else the minimum over all of them or that none matches |
| ChecksClient.LookupNamesCanonical | backend/src/orchestrator/infrastructure/github/checks_client.py:78-118 | for every order the server lists in, the lookup answers the lowest matching id, or none iff nothing matches |
| ChecksClient.CanonicalSurvivesPost | backend/src/orchestrator/infrastructure/github/checks_client.py:93-98 | creating a run never displaces an existing lowest match of any key |
| ChecksClient.GitHubChecksHttpClient.ResolveInstallationId | backend/src/orchestrator/infrastructure/github/checks_client.py:57-76 | the stored mapping is used unless a refresh is forced; otherwise GitHub is asked exactly once, its answer returned, and a success stored |
| ChecksClient.GitHubChecksHttpClient.PublishOnce | backend/src/orchestrator/infrastructure/github/checks_client.py:120-153 | every exchange is logged: an error is that of the token or page that failed, or there is exactly one send, whose reply is the answer; it creates a run iff no id is given and none matches, else it updates that id or the lowest match; at most one write, and success means the run says what was asked for |
| ChecksClient.GitHubChecksHttpClient.Publish | backend/src/orchestrator/infrastructure/github/checks_client.py:155-183 | an attempt is made iff the installation is known or could be asked for; a second one iff the first ended in 401, 403 or 404 and the refresh for that status succeeded; the last exchange decides the answer, which is kept; at most one write, and with a match present no run is ever created |
| CheckIdentity.ExternalIdInjective | backend/src/orchestrator/domain/services/github_check_intent.py:48-53 | two scan runs share an external id iff they are the same run |
| CheckIdentity.UuidTextShape | backend/src/orchestrator/domain/services/github_check_intent.py:48-53 | a 128-bit identifier is printed as the 36 characters of a UUID with its dashes in place |
| Outbox.FinishingWritesKeepTable | backend/src/orchestrator/infrastructure/db/repositories/github_check_publication_repository.py:69-128 | every finishing write keeps lease, status, check-run and dead-letter columns consistent, never rewrites an intent or a delivered row, and without the lease changes nothing |
| Outbox.HoldsImpliesClaimed | backend/src/orchestrator/infrastructure/db/repositories/github_check_publication_repository.py:155-198 | the owner-only compare-and-set can pass only on a CLAIMED row, so it is as strong as the documented status check |
| Outbox.TakenOverIffNamesDiffer | backend/src/orchestrator/infrastructure/db/repositories/github_check_publication_repository.py:155-198 | a row being claimed away stops the former holder's finishing writes iff the claimant has another name |
| Outbox.ClaimKeepsTable | backend/src/orchestrator/infrastructure/db/repositories/github_check_publication_repository.py:37-67 | a claim touches only the rows it selected and keeps the table consistent |
| Outbox.ReplayKeepsTable | backend/src/orchestrator/infrastructure/db/repositories/github_check_publication_repository.py:130-153 | replay changes a row iff it is DISABLED or DEAD, and keeps its attempt count |
| Outbox.SelectDue | backend/src/orchestrator/infrastructure/db/repositories/github_check_publication_repository.py:37-67 | the selection is the oldest due unlocked rows, as many as there are up to the limit |
| Outbox.PublicationTable.Create | backend/src/orchestrator/infrastructure/db/repositories/github_check_publication_repository.py:32-35 | the run and check name have a row afterwards in any case, a new one iff they had none, so they stay unique |
| Outbox.PublicationTable.ClaimDue | backend/src/orchestrator/infrastructure/db/repositories/github_check_publication_repository.py:37-67 | claims exactly a legal selection: those rows leased to the caller, all others untouched |
| Outbox.PublicationTable.MarkDelivered | backend/src/orchestrator/infrastructure/db/repositories/github_check_publication_repository.py:69-85 | iff the caller holds the row it becomes delivered under the ids given, after which no sweep can claim or finish it; no other row and no intent changes |
| Outbox.PublicationTable.Release | backend/src/orchestrator/infrastructure/db/repositories/github_check_publication_repository.py:87-90 | iff the caller holds the row it is nobody's and due at once, its count kept; no other row and no intent changes |
| Outbox.PublicationTable.Reschedule | backend/src/orchestrator/infrastructure/db/repositories/github_check_publication_repository.py:92-110 | iff the caller holds the row it still does, and the row is due again exactly after the new lease; no other row and no intent changes |
| Outbox.PublicationTable.MarkDead | backend/src/orchestrator/infrastructure/db/repositories/github_check_publication_repository.py:112-128 | iff the caller holds the row it has its reason, after which no sweep can claim or finish it; no other row and no intent changes |
| Outbox.PublicationTable.Replay | backend/src/orchestrator/infrastructure/db/repositories/github_check_publication_repository.py:130-153 | in a valid table exactly the rows no sweep can touch, other than delivered ones, become due at once, with their count kept |
| SweepProtocol.StepKeepsRows | backend/src/orchestrator/workers/tasks/github_checks.py:89-260 | every step of any sweep, crash or replay keeps all rows consistent, keeps every intent, and leaves delivered rows exactly as they are |
| SweepProtocol.TraceKeepsInv | backend/src/orchestrator/workers/tasks/github_checks.py:131-260 | in every reachable state of any interleaving, each row a sweep has in hand is either untouched since its claim or its lease has run out |
| SweepProtocol.ColumnsTellStatus | backend/src/orchestrator/infrastructure/db/repositories/github_check_publication_repository.py:69-153 | in every reachable state a row is leased iff CLAIMED, names a check run iff DELIVERED, and has a reason iff DEAD |
| SweepProtocol.AtMostOneUnexpiredLease | backend/src/orchestrator/domain/ports/github_check_publication_port.py:21-29 | two sweeps never both have a row in hand under a running lease, and the one that does is the recorded holder |
| SweepProtocol.LiveNamesakesAreNotKeptApart | backend/src/orchestrator/workers/tasks/github_checks.py:80-86 | two live sweeps of one name would both write: the input on which the owner comparison fails |
| SweepProtocol.DeliveredIsAbsorbing | backend/src/orchestrator/domain/ports/github_check_publication_port.py:31-48 | a delivered row is identical in every later state |
| SweepProtocol.DeadLeftOnlyByReplay | backend/src/orchestrator/domain/ports/github_check_publication_port.py:70-88 | the only step that changes a dead row is its replay, which returns it to pending with its count |
| SweepProtocol.LostSweepWritesNothing | backend/src/orchestrator/domain/ports/github_check_publication_port.py:31-81 | a finishing write by a sweep whose row was taken over changes no row |
| SweepProtocol.AttemptsBounded | backend/src/orchestrator/workers/tasks/github_checks.py:131-236 | the attempt count is the number of deliveries recorded by their holder, at most 12 plus one per replay; a live row has had at most 11 plus replays, and one that used up its share is delivered or dead |
| SweepProtocol.HolderRecordsOneAttempt | backend/src/orchestrator/workers/tasks/github_checks.py:131-236 | each delivery finished by the holder raises its row's count by exactly one and touches no other row |
| SweepProtocol.DeliveredRowNamesItsRun | backend/src/orchestrator/workers/tasks/github_checks.py:228-234 | a delivered row names a run on the server carrying its external id for its commit |
| SweepProtocol.MissingScanUnreachable | backend/src/orchestrator/workers/tasks/github_checks.py:154-174 | the missing-scan dead-letter branch is never taken |
| SweepConvergence.CanonicalForever | backend/src/orchestrator/infrastructure/github/checks_client.py:93-98 | once a run is the lowest match of a key it stays so in every later state |
| SweepConvergence.LateDeliveryUpdatesCanonical | backend/src/orchestrator/infrastructure/github/checks_client.py:120-153 | a delivery whose lookup starts after a matching run exists updates the lowest match and creates nothing |
| SweepConvergence.LateDeliveryRecordsCanonical | backend/src/orchestrator/workers/tasks/github_checks.py:228-234 | and records exactly that run in the row |
| SweepConvergence.RunsAreCreations | backend/src/orchestrator/infrastructure/github/checks_client.py:137-153 | the server holds exactly one matching run per creating step |
| SweepConvergence.DuplicateIffOverlap | backend/src/orchestrator/infrastructure/github/checks_client.py:78-98 | a scan ends up with two runs iff two creating deliveries overlapped: each looked before the other sent |
| SweepLeases.DuplicateNeedsExpiredLease | backend/src/orchestrator/infrastructure/github/checks_client.py:93-98 | a second run for a scan means that one of the two creating requests was sent after its sweep's lease |
| SweepLeases.SentWithinLeaseCreatesOne | backend/src/orchestrator/infrastructure/github/checks_client.py:93-98 | if every request is sent while its sweep's lease runs, each scan has at most one run |
| SweepLeases.OneRunIffSentWithinLease | backend/src/orchestrator/infrastructure/github/checks_client.py:78-98 | sending at most so many seconds after the lease guarantees one run per scan, in every run of the machine, iff that number is not positive |
| SweepLeases.DuplicatesAreReachable | backend/src/orchestrator/infrastructure/github/checks_client.py:93-98 | two runs for one scan are reachable, by overlapping deliveries of which one was sent after its lease |
| CheckSweep.DeliverOne | backend/src/orchestrator/workers/tasks/github_checks.py:131-236 | a row whose scan is there is published exactly once, another is dead-lettered without; delivered iff that publish succeeded, retried iff its failure is retryable and fewer than 12 attempts were made, else dead with the reason of the failure; one finishing write, at most one write on the server |
| CheckSweep.RunSweep | backend/src/orchestrator/workers/tasks/github_checks.py:239-260 | an undisturbed sweep takes the oldest due rows, publishes each once and leaves it as that publish answered: delivered with its run on the server, dead, or leased until a retry in range, with exactly one more attempt; no other row changes |
| CheckSweep.ProtocolSettlesAlike | backend/src/orchestrator/workers/tasks/github_checks.py:176-234 | in the interleaved machine a held row is finished exactly as a delivery with the same publish answer leaves it |
| CheckSweep.ProtocolRetriesAlike | backend/src/orchestrator/infrastructure/github/checks_client.py:170-183 | and after a send it tries again exactly when the client does: once, after a 401, 403 or 404 |
| FindingIndex.UpsertAllRow | backend/src/orchestrator/infrastructure/db/repositories/finding_repository.py:78-137 | what one scan does to every key: insert with both runs equal, or move only the last-seen run; all else is untouched |
| FindingIndex.FindingTable.BulkUpsertFindings | backend/src/orchestrator/infrastructure/db/repositories/finding_repository.py:78-137 | the statement succeeds iff no fingerprint repeats, and otherwise changes nothing |
| FindingIndex.FirstOccurrencesReport | backend/src/orchestrator/infrastructure/scanners/pip_audit_adapter.py:119-141 | dropping repeats loses no fingerprint and invents none |
| FindingIndex.FirstOccurrencesDistinct | backend/src/orchestrator/infrastructure/scanners/pip_audit_adapter.py:119-141 | what is kept has no repeated fingerprint |
| FindingIndex.ParseDependencyReport | backend/src/orchestrator/infrastructure/scanners/pip_audit_adapter.py:119-141 | the nested loop keeps exactly the first finding of each fingerprint, so its batch is always accepted |
| FindingIndex.RowRefinesHistory | backend/src/orchestrator/domain/ports/finding_port.py:79-102 | a row exists iff some completed scan of the subject reported the fingerprint, and its two runs are the earliest and the latest such scan |
| FindingIndex.IndexRefinesHistory | backend/src/orchestrator/domain/ports/finding_port.py:79-102 | the same for every key at once: the compact table refines the full history |
| FindingIndex.RescansKeepTriage | backend/src/orchestrator/domain/ports/finding_port.py:79-92 | no number of rescans changes the triage status or the stored finding |
| FindingIndex.TriageKeepsHistory | backend/src/orchestrator/domain/services/finding_transitions.py:42-63 | triage changes only the status of its own row, only between open and suppressed; unsuppressing undoes suppressing iff the row was not suppressed before |
| RepositoryDiff.DiffExactWhenLastTwo | backend/src/orchestrator/domain/ports/finding_port.py:19-37 | diffing the last completed run against the one before is exact: added is what only it reported, carried what it shares with earlier scans, resolved what the baseline had and it has not |
| RepositoryDiff.ExactDiffIsPartition | backend/src/orchestrator/domain/ports/finding_port.py:19-37 | an exact diff is pairwise disjoint and added plus carried is the latest scan |
| RepositoryDiff.DiffExactIffLastTwoCompleted | backend/src/orchestrator/domain/ports/finding_port.py:197-214 | the diff of two runs is exact for every content iff the latest completed last and the baseline immediately before it |
| RepositoryDiff.DiffDisjointIffLatestLater | backend/src/orchestrator/domain/ports/finding_port.py:19-37 | the three sets of two runs are pairwise disjoint for every content iff the latest completed after the baseline |
| RepositoryDiff.OutOfOrderAddedAndResolved | backend/src/orchestrator/domain/ports/finding_port.py:19-37 | for two runs created in one order and completed in the other, the use case answers one finding as both added and resolved |
| RepositoryDiff.RepositoryDiffDisjointIff | backend/src/orchestrator/application/use_cases/get_repository_diff.py:62-102 | the use case answers disjoint sets for every content iff the newer of the two newest runs completed later |
| RepositoryDiff.RepositoryDiffExactIff | backend/src/orchestrator/application/use_cases/get_repository_diff.py:62-102 | and exact sets for every content iff the newest run completed last and the second newest immediately before it, whatever the order of all other runs |
| RepositoryDiff.FewRunsDiff | backend/src/orchestrator/application/use_cases/get_repository_diff.py:62-102 | without a completed run the answer is empty, and with one everything that run reported is added |
| RepositoryDiff.RepositoryDiffExact | backend/src/orchestrator/application/use_cases/get_repository_diff.py:62-102 | when scans complete in creation order the use case compares the last two to complete and answers the exact sets |
| FindingCounts.LastSeenExact | backend/src/orchestrator/domain/ports/finding_port.py:105-113 | a run is charged exactly with the findings it reported that no later scan of its subject did |
| FindingCounts.LastSeenCountExact | backend/src/orchestrator/infrastructure/db/repositories/finding_repository.py:139-150 | the count of a run is the number of those fingerprints |
| FindingCounts.BucketCountsRows | backend/src/orchestrator/infrastructure/db/repositories/finding_repository.py:201-276 | a bucket counts per severity exactly the rows of that severity first seen in its run, and by the wanted scanner; a severity without rows has no entry |
| FindingCounts.TrendTotalExact | backend/src/orchestrator/domain/ports/finding_port.py:147-183 | the buckets add up to the rows first seen in the listed runs: nothing lost, nothing counted twice |
| FindingCounts.FilterSplitsTrend | backend/src/orchestrator/infrastructure/db/repositories/finding_repository.py:201-276 | a scanner filter never drops a run's bucket, and the counts of disjoint scanners add up to their joint count |
| FindingCounts.TrendSumsToRowCount | backend/src/orchestrator/domain/ports/finding_port.py:147-183 | with or without a scanner filter the trend never exceeds the repository's matching rows, equals them iff each was first seen in a listed run, and does so whenever the limit covers all runs |
| ScanSession.TriggerScan | backend/src/orchestrator/application/use_cases/trigger_scan.py:87-175 | refused iff not exactly one subject is given or it is missing or inactive; else the run of a pending or running task for the same subject, commit and scanner, or, iff there is none, a new pending run and task with the given columns; a missing or empty commit means the default branch |
| ScanSession.LoadAndStart | backend/src/orchestrator/workers/tasks/process_scan.py:284-434 | each error under its own condition, in their order; a pending task and its run are running from now on, also when a credential cannot be unsealed, and nothing else is written; every other error commits nothing |
| ScanSession.Session.CreatePublicationIfEligible | backend/src/orchestrator/workers/tasks/process_scan.py:519-566 | one intent is inserted iff eligible, and a second one for the run is refused |
| ScanSession.Session.BulkUpsert | backend/src/orchestrator/workers/tasks/process_scan.py:604-606 | the findings change as one accepted statement or not at all |
| ScanSession.CompleteScan | backend/src/orchestrator/workers/tasks/process_scan.py:569-625 | only a running scan whose batch repeats no fingerprint completes: status, time, commit, findings and, for a GitHub repository, the pending Check Run are committed together; else nothing is |
| ScanSession.CompleteTargetScan | backend/src/orchestrator/workers/tasks/process_scan.py:628-666 | the same without a commit or a Check Run |
| ScanSession.MarkFailed | backend/src/orchestrator/workers/tasks/process_scan.py:669-715 | exactly a pending or running scan fails, with the message, the time and its pending Check Run together; its commit and the findings stay |
| ScanLifecycle.TraceKeepsInv | backend/src/orchestrator/workers/tasks/process_scan.py:284-715 | the cross-table invariant holds after every interleaving of triggers, loads, write-backs, failures, redeliveries, edits, triage and outbox writes |
| ScanLifecycle.CompleteOutcomeExact | backend/src/orchestrator/workers/tasks/process_scan.py:594-625 | a write-back is accepted iff the run is still running and the batch is distinct; no other refusal is possible |
| ScanLifecycle.FinishKeepsOutbox | backend/src/orchestrator/workers/tasks/process_scan.py:519-566 | an intent is written exactly when one became due |
| ScanSafety.RunsAndTasksAgree | backend/src/orchestrator/workers/tasks/process_scan.py:284-715 | every run has exactly one task, with the same status and times at every moment; completed_at iff terminal |
| ScanSafety.FinishedRunsFrozen | backend/src/orchestrator/workers/tasks/process_scan.py:598-617 | from the moment a run finished, its status, commit, times and subject never change |
| ScanSafety.FinishesExactlyOnce | backend/src/orchestrator/workers/tasks/process_scan.py:598-698 | a finished run finished in exactly one step, whatever was redelivered or retried |
| ScanSafety.InFlightWorkUnique | backend/src/orchestrator/infrastructure/db/repositories/scan_task_repository.py:75-112 | at most one pending or running task per repository, commit and scanner, and per target and scanner |
| ScanSafety.PublicationIffFinishedOnGitHub | backend/src/orchestrator/workers/tasks/process_scan.py:519-566 | a publication exists for a run iff it is COMPLETED or FAILED, its subject a GitHub repository and its commit non-empty; it is unique, and SUCCESS iff COMPLETED |
| ScanSafety.WriteBacksNeverCollide | backend/src/orchestrator/workers/tasks/process_scan.py:569-715 | no reachable write-back tries to create a second publication or misses its run; only a repeated fingerprint is refused |
| ScanSafety.LoadFindsItsRows | backend/src/orchestrator/workers/tasks/process_scan.py:346-392 | the missing-run, missing-repository and missing-target branches are unreachable |
| ScanSafety.FindingsNameCompletedRuns | backend/src/orchestrator/domain/ports/finding_port.py:79-102 | in every reachable state each finding row names two COMPLETED runs of its subject, the earliest and latest to complete among all that reported it |
| ScanSafety.ReachableDiffExact | backend/src/orchestrator/infrastructure/db/repositories/scan_run_repository.py:80-96 | in every reachable state, for the two runs the created_at query lists, the diff is disjoint when the newer completed later and exact when they are the last two by completed_at |
| ScanPublication.LifecycleServesSweeps | backend/src/orchestrator/workers/tasks/process_scan.py:519-715 | every lifecycle transaction is, for the sweeps, a harmless renewal of the runs plus at most one new row whose run and repository can be loaded |
| ScanPublication.SweepsKeepLifecycle | backend/src/orchestrator/workers/tasks/github_checks.py:89-260 | every sweep step keeps the lifecycle's invariant, so the two machines hold together |
| ScanPublication.LifecycleNeverBlocked | backend/src/orchestrator/workers/tasks/process_scan.py:519-715 | every lifecycle transaction has its counterpart among the sweeps' steps |
| ScanPublication.RunKeepsSystem | backend/src/orchestrator/workers/tasks/github_checks.py:89-260 | both invariants hold in every reachable state of lifecycle and sweeps running together |
| ScanPublication.DeliveredPublicationIsOnGitHub | backend/src/orchestrator/workers/tasks/github_checks.py:176-234 | end to end: a delivered publication belongs to a finished run of a GitHub repository, and the server holds a Check Run with that run's external id on that repository and commit |
| SystemConvergence.RunProjects | backend/src/orchestrator/workers/tasks/github_checks.py:89-260 | every run of lifecycle and sweeps together is, for the sweeps, a run of their own machine with the same requests |
| SystemConvergence.LateDeliveryUpdatesCanonical | backend/src/orchestrator/infrastructure/github/checks_client.py:120-153 | so in the whole system, too, a delivery that looks after a run exists updates the lowest one and creates none |
| SystemConvergence.SentInLeaseMakesOneRun | backend/src/orchestrator/infrastructure/github/checks_client.py:93-98 | if no request is sent after its lease, the whole system makes at most one run per scan |
| SystemConvergence.AtMostOneUnexpiredLease | backend/src/orchestrator/domain/ports/github_check_publication_port.py:21-29 | in the whole system one publication is never in two hands under running leases |
| SystemConvergence.AttemptsBounded | backend/src/orchestrator/workers/tasks/github_checks.py:131-236 | in the whole system a publication has at most twelve attempts plus one per replay |
| ScanMessage.StepRelies | backend/src/orchestrator/workers/tasks/process_scan.py:598-698 | every lifecycle step is interference an attempt tolerates |
| ScanMessage.BackoffTotals | backend/src/orchestrator/workers/backoff.py:20-38 | n back-offs add up to at least 2^n - 1 seconds, at most n more, and at most 36 |
| ScanMessage.BackoffGrows | backend/src/orchestrator/workers/backoff.py:20-38 | each back-off is the power of two plus at most one second, capped at a minute, and never shorter for a later retry |
| ScanMessage.LoadScan | backend/src/orchestrator/workers/tasks/process_scan.py:284-434 | a load answers what the attempt may write back, or one of the two deterministic errors under its condition, and writes exactly the start of a pending scan |
| ScanMessage.RecordFailure | backend/src/orchestrator/workers/tasks/process_scan.py:669-715 | an unfinished scan is FAILED with exactly this message and its history unchanged; a finished one stays as it is |
| ScanMessage.WriteBackScan | backend/src/orchestrator/workers/tasks/process_scan.py:569-666 | an unfinished scan is COMPLETED with this commit and its history extended by exactly this batch iff the batch repeats no fingerprint; otherwise it raises, and nothing is written then or when somebody else finished the scan |
| ScanMessage.ProcessScanMessage | backend/src/orchestrator/workers/tasks/process_scan.py:744-942 | under any interference: every execution loads, then writes exactly what its load and execution came to; another one follows iff it failed transiently, was not found finished at its load, and was not the sixth; the back-offs add up to at most 36 seconds, and the scan is left finished iff no write-back raised |
| ScanMessage.FinishedAsExecuted | backend/src/orchestrator/workers/tasks/process_scan.py:744-942 | a scan nobody else finished is COMPLETED with commit and batch iff the last execution came to a result with distinct fingerprints, and FAILED with the message of the error iff the load raised, the execution failed deterministically, or the sixth failed transiently |
| ScanMessage.RepeatedFingerprintLeavesScanRunning | backend/src/orchestrator/workers/tasks/process_scan.py:594-625 | a reachable state and a batch whose write-back changes nothing and leaves the scan running |
| WebhookIntake.IngestWebhook | backend/src/orchestrator/application/use_cases/ingest_webhook.py:62-157 | each outcome iff its own condition on signature, event, ledger, body and repository; one audit row with that outcome unless it is a duplicate; only an accepted push triggers a scan, and a task id is answered iff a task was created |
| WebhookIntake.OutcomeDecided | backend/src/orchestrator/application/use_cases/ingest_webhook.py:78-134 | REJECTED_SIGNATURE iff the signature is invalid; ACCEPTED iff it is valid, the event a push, the identifier not recorded, the body valid, and the pushed ref the default branch of an active GitHub repository of that owner and name; likewise each other outcome |
| WebhookIntake.DeliveryTable.ExistsId | backend/src/orchestrator/domain/ports/webhook_delivery_port.py:18-26 | true iff some row carries the identifier |
| WebhookLedger.AcceptedWorkInFlight | backend/src/orchestrator/application/use_cases/ingest_webhook.py:119-143 | after an accepted push exactly one task in flight does the pushed work, new or not; any other request leaves the lifecycle alone |
| WebhookLedger.RequestsDecided | backend/src/orchestrator/application/use_cases/ingest_webhook.py:62-157 | in every run each request gets the outcome its conditions decide, is audited unless it is a duplicate, and changes the lifecycle only if accepted |
| WebhookLedger.ForgedRequestsChangeNothing | backend/src/orchestrator/application/use_cases/ingest_webhook.py:85-87 | an invalid signature never changes a lifecycle table and is recorded without identifier or commit |
| WebhookLedger.DeliveryIdsDistinct | backend/src/orchestrator/application/use_cases/ingest_webhook.py:107-157 | no non-null delivery identifier is ever recorded twice |
| WebhookLedger.OneRowPerRequest | backend/src/orchestrator/application/use_cases/ingest_webhook.py:78-157 | the ledger has exactly one row per request that was not a duplicate |
| WebhookLedger.RedeliveryChangesNothing | backend/src/orchestrator/application/use_cases/ingest_webhook.py:107-109 | a second push with an identifier already handled is a duplicate and changes nothing |
| WebhookLedger.DuplicatesRemovable | backend/src/orchestrator/application/use_cases/ingest_webhook.py:107-109 | removing all duplicate requests from any run leads to the very same tables and ledger |
| WebhookLedger.AcceptedRowsAccountForRuns | backend/src/orchestrator/application/use_cases/ingest_webhook.py:136-157 | ACCEPTED rows are exactly the webhook runs plus the requests that joined a run in flight |
| KubernetesExecution.BoundedNamesEqualIff | backend/src/orchestrator/infrastructure/kubernetes/kubernetes_scan_execution.py:80-81 | two derived names are equal iff the kept digits and the suffixes are |
| KubernetesExecution.OwnNamesDisjointIff | backend/src/orchestrator/infrastructure/kubernetes/kubernetes_scan_execution.py:34-37 | two tasks' resources are disjoint iff their first twenty digits differ, and otherwise all shared; every name fits a 63-character label |
| KubernetesExecution.EnsurePvc | backend/src/orchestrator/infrastructure/kubernetes/kubernetes_scan_execution.py:239-242 | the claim was found or created, created only when absent, or the raise is reported |
| KubernetesExecution.SubmitJob | backend/src/orchestrator/infrastructure/kubernetes/kubernetes_scan_execution.py:260-262 | a Job is created exactly when none of that name exists, and afterwards it is there unless the look-up or the creation raised |
| KubernetesExecution.RunJob | backend/src/orchestrator/infrastructure/kubernetes/kubernetes_scan_execution.py:244-280 | exactly the calls submit-or-discover, wait and read in that order up to the first that raises; Ok iff all answered and the Job neither timed out, nor failed unless it is a scanner whose exit code is data, nor ended without success |
| KubernetesExecution.Cleanup | backend/src/orchestrator/infrastructure/kubernetes/kubernetes_scan_execution.py:282-289 | all Jobs of the execution and its claim are gone unless a delete raised; what was deleted is gone even then, and a run without a rev-parse Job leaves a leftover one alone |
| KubernetesExecution.StripExact | backend/src/orchestrator/infrastructure/kubernetes/kubernetes_scan_execution.py:208 | the commit is the rev-parse log without white space, as Python defines it, at its two ends, and nothing else removed |
| KubernetesExecution.Execute | backend/src/orchestrator/infrastructure/kubernetes/kubernetes_scan_execution.py:127-237 | from any leftovers and with any call raising: no call with a credential; nothing created that exists; the scanner only after a successful checkout and rev-parse; without a failed delete the error names a role iff a Job of that role timed out, failed other than as scanner data or did not succeed, or a call about it raised, and the result is made of the logs; whatever was deleted is gone; no Job is left iff a rev-parse Job ran or none was left over |
| KubernetesExecution.OtherTasksUntouched | backend/src/orchestrator/infrastructure/kubernetes/kubernetes_scan_execution.py:80-81 | no call ever names a resource of a task with other digits |
| KubernetesReconciliation.OrphansListed | backend/src/orchestrator/infrastructure/kubernetes/kubernetes_reconciliation.py:50-52 | the names to delete are exactly the listed inactive ones |
| KubernetesReconciliation.Reconcile | backend/src/orchestrator/infrastructure/kubernetes/kubernetes_reconciliation.py:40-64 | under any interference only inactive names are deleted, and there is no report iff a listing or a delete raised; a report names exactly the deletes made; alone, exactly the active names remain and a second sweep finds nothing |
| JobPolling.OutcomeExact | backend/src/orchestrator/infrastructure/kubernetes/kubernetes_job_mapping.py:145-161 | a status is running, succeeded or failed, exactly one of them; success wins; a failure is a timeout iff its first true failure condition gives the deadline as reason |
| JobPolling.LastPollIff | backend/src/orchestrator/infrastructure/kubernetes/kubernetes_client_job_runner.py:114-128 | a read is the last iff it is number 1 + ceil(timeout / interval) or later, when only sleeps take time |
| JobPolling.WaitForJob | backend/src/orchestrator/infrastructure/kubernetes/kubernetes_client_job_runner.py:114-128 | reads and sleeps one interval in turn, at most 1 + ceil(timeout / interval) reads; times out by its own deadline only if the last read was not terminal; otherwise answers that read, and raises iff it raised |
| LogExtraction.MatchUnique | backend/src/orchestrator/infrastructure/kubernetes/kubernetes_repository_scan_execution.py:46 | an escape sequence at a place has one length, so stripping is unambiguous |
| LogExtraction.StripExact | backend/src/orchestrator/infrastructure/kubernetes/kubernetes_repository_scan_execution.py:46 | at the front of a text stripping drops the escape sequence there, and keeps the character when there is none |
| LogExtraction.StripDistributes | backend/src/orchestrator/infrastructure/kubernetes/kubernetes_repository_scan_execution.py:74 | no escape sequence spans a newline: stripping works line by line |
| LogExtraction.FromLastOpeningUnique | backend/src/orchestrator/infrastructure/kubernetes/kubernetes_repository_scan_execution.py:50-78 | what is to be extracted is determined by the stripped text |
| LogExtraction.ExtractReport | backend/src/orchestrator/infrastructure/kubernetes/kubernetes_repository_scan_execution.py:53-78 | the loop returns the text from the last line that opens an array, or all of it |
| LogExtraction.StatusLinesIrrelevant | backend/src/orchestrator/infrastructure/kubernetes/kubernetes_repository_scan_execution.py:53-78 | what is extracted is decided by the report alone, whatever status lines precede it |
| LogExtraction.ReportRecoveredIff | backend/src/orchestrator/infrastructure/kubernetes/kubernetes_repository_scan_execution.py:53-78 | the extraction is exactly the report iff no later line of the report opens with a bracket |
| TokenCache.AppTokenCache.CheckKeyRotation | backend/src/orchestrator/infrastructure/github/app_token_provider.py:74-84 | from a consistent cache exactly the tokens minted under the key now on disk are kept, and the cache stays consistent |
| TokenCache.AppTokenCache.BeginCall | backend/src/orchestrator/infrastructure/github/app_token_provider.py:107-116 | from a consistent cache a token is answered iff no refresh is forced and the stored one is of the key on disk and good for more than five minutes; otherwise a JWT under that key |
| TokenCache.ServedIff | backend/src/orchestrator/infrastructure/github/app_token_provider.py:107-115 | from a consistent cache a token is served iff not forced to refresh, of the key now on disk, and good for more than five minutes |
| TokenCache.GetInstallationToken | backend/src/orchestrator/infrastructure/github/app_token_provider.py:100-128 | a whole call keeps every token minted under the recorded fingerprint, and one served matches the key file and has more than five minutes left |
| TokenCache.SequentialCallsServeCurrentKey | backend/src/orchestrator/infrastructure/github/app_token_provider.py:74-128 | the same across any rotations and calls made one at a time |
| TokenCache.ConsistentIffNoStaleStore | backend/src/orchestrator/infrastructure/github/app_token_provider.py:107-128 | with overlapping calls it holds throughout iff no answer arrives across a rotation another call has seen |
| TokenCache.OverlapCanServeOldKey | backend/src/orchestrator/infrastructure/github/app_token_provider.py:107-128 | an overlap that serves a token of the old key |
| EventRelay.ChannelRoundTrip | backend/src/orchestrator/infrastructure/realtime/channels.py:12-25 | names and ids are in bijection exactly on the channels matching the subscription pattern |
| EventRelay.ScanEventRelay.Subscribe | backend/src/orchestrator/infrastructure/realtime/relay.py:83-93 | a fresh empty queue joins its scan's queues, and no other scan's change |
| EventRelay.ScanEventRelay.Unsubscribe | backend/src/orchestrator/infrastructure/realtime/relay.py:94-99 | exactly this queue leaves exactly this scan, and the scan stays a key iff another queue remains |
| EventRelay.LeavingUndoesJoining | backend/src/orchestrator/infrastructure/realtime/relay.py:83-99 | leaving undoes joining iff the queue was not there before |
| EventRelay.ScanEventRelay.Deliver | backend/src/orchestrator/infrastructure/realtime/relay.py:68-80 | every queue of the scan is offered the event once, a full one drops it, no other queue changes |
| EventRelay.KeysAreWatchedScans | backend/src/orchestrator/infrastructure/realtime/relay.py:83-99 | after any interleaving the keys are exactly the watched scans and no queue exceeds 16 |
| EventRelay.ClientReceivesSubsequence | backend/src/orchestrator/infrastructure/realtime/relay.py:68-99 | a client receives an in-order subsequence of its scan's events since subscribing, and all of them iff no arrival found its queue full |

## Left out

- Frontend, HTTP routers, dependency wiring, settings, tracing, metrics and logging.
- Celery itself: only the retry counter, its limit and the back-off are modelled.
- Scanner adapters, Docker, git and ZAP execution: an execution is its findings and commit, a deterministic failure or a transient one; only the repeat-dropping loop of the pip-audit parser is modelled.
- Credential unsealing and its audit log: an attempt either can or cannot unseal.
- The payload summary of a publication: an opaque text.
- Hashing, signing and signature checks, request parsing, and the redaction of diff results by role.
- Order of the findings inside a diff set, and the paginated listings, which only sort and slice.
- Isolation levels below one-step transactions: two triggers whose reads and inserts interleave inside Postgres could both insert.
- Manifest mapping, preflight and network policy of the cluster, the 64 KiB log cap, and the exit code assumed when none is observable.
- The relay's Redis connection, its start and its stop.
- The user who triggered a scan and the user who triaged a finding.
- Floating-point rounding: seconds are real numbers.
- Outbox.PublicationTable.Release: is modelled as a statement, but no sweep calls it, so it is not a step of the protocol.
- TokenCache.GetInstallationToken: does not tell apart two key files of the same modification time and size, because the code does not.
- KubernetesExecution.Execute: does not model the text of Job specifications, only which are created, when, and under which names.
- LogExtraction.ReportRecoveredIff: does not cover a report that contains raw escape characters or follows a status line without a newline.
- SweepProtocol.AtMostOneUnexpiredLease: does not cover two sweeps of one owner name alive at the same time, such as a message redelivered to the host that is still running it; SweepProtocol.LiveNamesakesAreNotKeptApart shows that the owner comparison then fails.
- ScanMessage.ProcessScanMessage: does not model the loss of a message or of its worker; it follows one message that is processed to its end.
