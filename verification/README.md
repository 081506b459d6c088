# Verified model of the document service's control logic

A Dafny model of the parts of the repository that carry state, concurrency or exact counting, with proofs of
what they promise. `dafny verify dfyconfig.toml` checks everything.

| files | what they model |
|---|---|
| `RateLimiter`, `RateLimiterRuns`, `RateLimiterTheorems`, `RateLimiterRetry`, `RateLimiterLimits` | the sliding-window rate limiter: pruned, lazily expired, capped buckets against an ideal limiter; when rejected clients are let in again; which populations and which late clocks it stands |
| `HistoryChain` | the hash-chained ledger history and its verification |
| `Board`, `Orchestrator`, `BoardRuns`, `BoardLedger`, `BoardSafety`, `BoardDriver` | the truth-gated loop ledger: every command, as a function of the state and as edits in place; runs, what the history says is done, safety, termination |
| `Transactions` | orchestrator processes interleaving lock, load, modify, save and crash on one state file |
| `Admission` | extraction slots, worker pool, deadlines, callbacks and shutdown, as interleaved steps |
| `Readiness` | the single-flight readiness cache whose verdict, stamp and event are separate writes |
| `Decimal`, `BodyLimit` | Content-Length compared as digit strings; buffering, replay, the governor behind it |
| `Report`, `Harness`, `ReleaseCheck`, `ReportAgreement` | the benchmark report: nested counting loops, the independent validator, the release gates, and when the two agree |
| `Iou`, `Score` | box overlap over the reals, and the accounting of the blind scorer |
| `Ingress` | the stack walk that screens request bodies |

Conventions. A command, request or step that the program refuses (an exit, an exception, an HTTP error) is
`Rejected` or `None`. Code that updates objects in place is a class whose methods are proved equal to a
function of the old state; the theorems are about that function and about runs of it. Interleavings are lists
of moves, one atomic action each. The hash function, the evidence validators' content checks, the value
matcher of the scorer and the shared percentage rounding are parameters, so the results hold for every choice.

## What turned out to need a condition

* A per-minute limit of 0 or less is the off switch, for tenants too: then no request is limited. All runs
  below are runs of a limiter that is on (`perMin > 0`).
* The hard cap makes the limiter forget. A client evicted in a window can be admitted its limit again for each
  eviction, and no more (`BurstWithEvictions`); for every limit and number of evictions some run under a cap of
  one reaches that (`EvictionsPayInFull`). For a given population of clients the limits hold in every run
  exactly if the cap has room for all of them (`LimitsHoldIffClientsFit`); one client more, and there is a run
  in which a client is admitted once too often within a second (`TooManyClients`).
* The limiter reads the clock before it takes its lock. Its one deployed caller runs on a single event loop
  (`overlay/request_gates.py:17-27`), so there the stamps are in order; with callers on several threads they
  need not be. If stamps are at most `d` seconds late, the limits hold in windows of `60 - 2 d` seconds and
  in no wider ones (`ToleratesIff`).
* `Retry-After` is rounded down. Waiting exactly that long suffices exactly if less than one second of the
  window was left (`WaitSufficesIff`), and one second more always does (`RetryAfterSuffices`).
* A tenant limit below 1, with the limiter on, meets an empty bucket and raises `IndexError`; exactly then
  (`FaultsIffLimitBelowOne`).
* `reset`, `wont_fix` on a done task and a failing re-attestation with `--reopen` take a task out of done
  without touching its dependents. A command keeps "everything active rests on done tasks" exactly when it is
  none of these or nothing active depends on its target (`ClosureSurvivesIff`).
* `run` accepts a halted task; halting binds `next` only (`HaltedTasksStillRun`).
* The history chain cannot see a cut-off tail (`TruncationVerifies`).
* Where the platform has no file locks, two processes can lose an update (`LostWithoutFileLocks`).
* The readiness TTL counts from the stamp, which is read after the checks. If no successful probe is held up
  longer than `d` between the two, the checks behind a cached "ready" can have any age below TTL + `d` and no
  other (`AgesServedIff`); they are always younger than the TTL exactly if `d` is 0 (`ChecksWithinTtlIff`).
* A Content-Length of more digits than the interpreter converts (4300 by default, leading zeros included)
  separates the two length checks: the limiter compares it correctly, the governor answers 400. They agree on
  a digit string exactly up to that length (`GovernorAgreesIff`); on one zero more, which denotes 0, the
  limiter passes what the governor refuses (`LongZeroIsRefused`).
* A gate can stay done when the task that fed it no longer is: what takes a task out of done never touches a
  gate (`RevocationSparesGates`), and the task is still done exactly if nothing has revoked it since
  (`FeederDoneIff`). Attesting a task and resetting it is such a run (`GateOutlivesTask`).
* The coverage validator accepts the benchmark's own report exactly when every indexed file was present at
  run time and the quality gate, asked twice about an unanswerable field, did not change to "block"
  (`AcceptedIffReproducible`): an `incorrect_answer` detail that is not rendered is refused.
* On a report that passes coverage, the 95 % gate follows from the false-refusal and render gates
  (`GroundedGateIsImplied`).
* `blocked_bad_boxes` of the scorer is never incremented: its guard repeats a condition the enclosing branch
  has excluded. The "blocked" gate therefore says that there were no bad boxes at all (`GatesGreenIff`).

## Model

| member | source | states |
|---|---|---|
| `RateLimiter.Limiter.PruneStale` | overlay/server.py:594-597 | removes exactly the buckets that are empty or whose newest timestamp is out of the window |
| `RateLimiter.Limiter.LeastActive` | overlay/server.py:600 | the first client, in insertion order, that nobody is less recently active than |
| `RateLimiter.Limiter.EvictLeastActive` | overlay/server.py:598-602 | removes the given number of clients; every victim is less recently active than every survivor, or as active and inserted earlier; no surviving bucket changes |
| `RateLimiter.Limiter.MakeRoom` | overlay/server.py:592-602 | pruning above the high-water mark and eviction at the hard cap, and what both leave of the map and its order |
| `RateLimiter.Limiter.ServeBucket` | overlay/server.py:603-614 | expires the client's bucket, judges it by its length, records an admission, leaves other buckets alone |
| `RateLimiter.Limiter.RateLimitResponse` | overlay/server.py:585-615 | an unlimited request changes nothing; a limited one is one step of the transition relation all theorems are about, with ties among victims settled by insertion order |
| `RateLimiterRuns.ExpireSplits` | overlay/server.py:604-605 | popping from the left removes a prefix older than the cutoff and stops at the first younger entry |
| `RateLimiterRuns.SimAlongRun` | overlay/server.py:591-614 | in every run with stamps at most `late` late, evictions included, a client's bucket is what was admitted since its last eviction, minus a prefix older than any later window |
| `RateLimiterTheorems.VerdictIsIdeal` | overlay/server.py:603-614 | in clock order every request is judged by the window of its own client's admissions since that client's last eviction |
| `RateLimiterTheorems.RefinesIdealLimiter` | overlay/server.py:585-615 | in clock order each client gets, request by request, the verdicts of an ideal limiter that serves it alone and forgets it when it is evicted |
| `RateLimiterTheorems.RefinesUnboundedLimiter` | overlay/server.py:585-615 | a client that the hard cap never evicts gets the verdicts of a limiter that keeps every timestamp for ever |
| `RateLimiterTheorems.ClientsAreIsolated` | overlay/server.py:585-615 | two runs in which a client asks at the same times and is evicted at the same points give it the same verdicts: evicting it is all that others can do to it |
| `RateLimiterTheorems.NoBurst` | overlay/server.py:604-614 | with stamps at most `late` late, no more than the limit of a client's admissions since its last eviction lie in any closed window of `60 - 2 late` seconds |
| `RateLimiterTheorems.BurstWithEvictions` | overlay/server.py:591-614 | in clock order no client is admitted in a closed 60-second window more often than its limit, once for the window and once more for each time it is evicted in it |
| `RateLimiterTheorems.StateStaysBounded` | overlay/server.py:591-614 | after every request of every clock-ordered run, evictions included, there are at most the hard cap (at least one) of buckets, each sorted and within its client's limit, and non-empty for limits of at least 1 |
| `RateLimiterTheorems.FaultsIffLimitBelowOne` | overlay/server.py:606-608 | indexing an empty bucket happens, with the limiter on, exactly on requests of tenants whose limit is below 1 |
| `RateLimiterRetry.RejectionWindow` | overlay/server.py:606-608 | at a rejection exactly `limit` admissions since the last eviction decide, and the oldest fixes the advertised wait |
| `RateLimiterRetry.AdmittedAgainIff` | overlay/server.py:598-614 | with no admission in between, the client is let in again exactly if it has been evicted since, or the oldest deciding admission has left the window |
| `RateLimiterRetry.RetryAfterSuffices` | overlay/server.py:608-613 | in every clock-ordered run the advertised wait is 1 to 60 seconds, and one second more is always enough |
| `RateLimiterRetry.WaitSufficesIff` | overlay/server.py:608 | without eviction, coming back on the advertised second is enough exactly if less than one second of the window was left |
| `RateLimiterLimits.RetryAfterCanUnderstate` | overlay/server.py:608 | a run in which a client waits the advertised 59 seconds and is rejected again |
| `RateLimiterLimits.TailStays` | overlay/server.py:598-602 | where activity follows insertion order, the eviction that the program makes keeps the tail of that order |
| `RateLimiterLimits.FewAreNeverEvicted` | overlay/server.py:598-602 | no run over no more clients than the cap holds evicts anybody |
| `RateLimiterLimits.TooManyClients` | overlay/server.py:598-614 | with the limiter on, over any more clients there is a clock-ordered run, victims taken as the program takes them, in which one is admitted once more than its limit in one window |
| `RateLimiterLimits.LimitsHoldIffClientsFit` | overlay/server.py:585-615 | with the limiter on, every run over a set of clients keeps all their limits exactly if the set is no larger than the cap |
| `RateLimiterLimits.EvictionsPayInFull` | overlay/server.py:598-614 | for every limit and every number of evictions, a run that admits a client its limit in one window, and again after each eviction |
| `RateLimiterLimits.LateStampsLoseOne` | overlay/server.py:590-614 | for every lateness and every wider window, a run without eviction that admits more than the limit in it |
| `RateLimiterLimits.ToleratesIff` | overlay/server.py:590-614 | stamps `late` seconds late cost exactly twice that: the limits hold in windows up to `60 - 2 late` wide |
| `HistoryChain.VerifyHistoryChain` | loop-engineering/validators.py:391-405 | accepts exactly the intact histories, and otherwise stops at the first entry that does not fit |
| `HistoryChain.LogKeepsVerified` | loop-engineering/orchestrator.py:115-122 | logging keeps an intact history intact, appends one entry with the given action and changes nothing before it |
| `HistoryChain.TruncationVerifies` | loop-engineering/validators.py:391-405 | every prefix of an intact history is intact |
| `HistoryChain.SameHeadSameHistory` | loop-engineering/validators.py:391-405 | two intact non-empty histories with the same last hash are equal entry by entry, or contain two different bodies with one digest, also when their lengths differ |
| `HistoryChain.HeadPinsThePast` | loop-engineering/validators.py:391-405 | an intact history that contains a known head starts with the history known under that head, or a collision is exhibited |
| `Board.Find` | loop-engineering/orchestrator.py:127-138 | the first task with the id, none exactly when no task has it |
| `Board.NextTask` | loop-engineering/orchestrator.py:283-292 | the first task that is pending or in progress after promotion, none exactly when there is none |
| `Orchestrator.Session.Execute` | loop-engineering/orchestrator.py:303-472 | a whole mutating invocation, edited in place, saves exactly what the specification of its command says, or is refused; `Log`, `RecordRun`, `Run`, `AttestTarget`, `GiveUpOn` and `ResetTask` are its parts, and what the specifications mean is said by `NormalForm` and the theorems below |
| `Orchestrator.Session.FindTask` | loop-engineering/orchestrator.py:127-138 | the loop returns the first task with the id |
| `Orchestrator.Session.RefreshBlocked` | loop-engineering/orchestrator.py:152-158 | although it recomputes who is done for every task, one pass promotes exactly the tasks unblocked at its start, and counts them |
| `Orchestrator.Session.FailedSignatures` | loop-engineering/orchestrator.py:314 | the signatures of the failed attempts, in order |
| `Orchestrator.Session.Next` | loop-engineering/orchestrator.py:283-292 | names the first actionable task and changes nothing |
| `BoardRuns.NormalForm` | loop-engineering/orchestrator.py:303-430 | every accepted command, whichever it is, promotes, edits the one task or gate it names within its guards, and logs one entry |
| `BoardRuns.PromotionIsEffective` | loop-engineering/orchestrator.py:146-158 | the displayed status is the status stored after `refresh_blocked`, which is idempotent |
| `BoardRuns.StaticStays` | loop-engineering/orchestrator.py:303-430 | no command changes a task's id, dependencies, oracle, gate or budget, nor the number or order of tasks |
| `BoardRuns.HistoryOnlyGrows` | loop-engineering/orchestrator.py:115-122 | over any run the old history stays a prefix, one entry is added per accepted command, and the chain stays intact |
| `BoardSafety.DoneAfter` | loop-engineering/orchestrator.py:303-430 | which ids are done after a command, in terms of those before and the command |
| `BoardSafety.DoneShrinksIff` | loop-engineering/orchestrator.py:346-430 | the done set shrinks exactly on reset, wont_fix or a reopened fail of a done task |
| `BoardSafety.ClosureSurvivesIff` | loop-engineering/orchestrator.py:303-430 | a command keeps every active task's dependencies done exactly when it does not demote, or nothing active depends on its target |
| `BoardSafety.DependencySafety` | loop-engineering/orchestrator.py:141-158 | in any run without demotions every pending, running, halted or done task has all its dependencies done, and the done set only grows |
| `BoardSafety.WholeFoundationDone` | loop-engineering/orchestrator.py:141-158 | on such a board everything an active task rests on through any chain of dependencies is done |
| `BoardSafety.ResetBreaksClosure` | loop-engineering/orchestrator.py:423-430 | a board on which a reset leaves an active task with an unfinished dependency |
| `BoardSafety.DeadDependency` | loop-engineering/orchestrator.py:152-158 | a task resting on a given-up one stays blocked or given up until that one is reset or reopened |
| `BoardLedger.TaskStep` | loop-engineering/orchestrator.py:303-430 | each command makes a task done, keeps it done or undoes it exactly as the one entry it logs says |
| `BoardLedger.GateStep` | loop-engineering/orchestrator.py:303-414 | the same for gates |
| `BoardLedger.TaskDoneIffEarned` | loop-engineering/orchestrator.py:303-430 | after any commands a task is done exactly if an entry of the run earned it and no later reset, wont_fix, failed run or failed attestation of it follows; a human task then carries the evidence of that attestation, of a target with a registered validator |
| `BoardLedger.HiddenNeverDone` | loop-engineering/orchestrator.py:127-138 | a task behind another of the same id is never done |
| `BoardLedger.GateDoneIffEarned` | loop-engineering/orchestrator.py:303-414 | the same for a gate, earned by an attestation of itself or of a task that feeds it |
| `BoardLedger.NoFakeGreen` | loop-engineering/orchestrator.py:303-430 | from a board with nothing done, after any commands at all, the history alone tells what is done |
| `BoardLedger.RevocationSparesGates` | loop-engineering/orchestrator.py:369-430 | what takes a task out of done leaves every gate as it is |
| `BoardLedger.FeederDoneIff` | loop-engineering/orchestrator.py:346-430 | after the entry that last earned a gate, the task that fed it is still done exactly if no later entry revoked it |
| `BoardLedger.GateOutlivesTask` | loop-engineering/orchestrator.py:388-430 | a run after which a gate is done and the task that fed it is not |
| `BoardSafety.AttestationsHadTheirDeps` | loop-engineering/orchestrator.py:346-366 | at every passing attestation in the history, all dependencies of the target were done |
| `BoardSafety.BudgetHolds` | loop-engineering/orchestrator.py:314-324 | after any run, a script task in progress has attempts left and its last two failures differ |
| `BoardSafety.HaltedTasksStillRun` | loop-engineering/orchestrator.py:283-338 | a halted script task is never what `next` names, yet `run` accepts it |
| `BoardDriver.NextIsAccepted` | loop-engineering/orchestrator.py:283-343 | on a board of script tasks, `run` never refuses what `next` names |
| `BoardDriver.NextMakesProgress` | loop-engineering/orchestrator.py:283-343 | each such run, passing or not, shrinks the iterations left on the board |
| `BoardDriver.DriveToRest` | loop-engineering/orchestrator.py:283-343 | the loop stops for every sequence of outcomes with nothing left to do, one entry per run, within the iterations left on the board: what is left of each open task's budget, or one run where nothing is left |
| `Transactions.NoLostUpdate` | loop-engineering/orchestrator.py:69-112 | for any number of processes, interleaving and crashing anywhere, the file holds the replay of the committed commands in commit order, one entry each, and every reader saw such a state |
| `Transactions.RenameIsSerial` | loop-engineering/orchestrator.py:98-112 | the rename publishes the command's effect on exactly the state it replaces |
| `Transactions.LostWithoutFileLocks` | loop-engineering/orchestrator.py:69-74 | without file locks, from every intact state, two processes can both commit and leave the effect of one |
| `Admission.EditKeepsJobOk` | overlay/server.py:1034-1111 | each request has exactly one way left to give its slot back, and a step releases exactly what the request stops holding |
| `Admission.AdmissionConserves` | overlay/server.py:1034-1111 | in every interleaving free plus held slots make up the capacity, and no request releases twice |
| `Admission.NeverOverReleased` | overlay/server.py:356-357 | the bounded semaphore is never released above its bound |
| `Admission.ShedIffFull` | overlay/server.py:1034-1041 | a request is shed exactly when all worker and queue slots are held |
| `Admission.AtMostWorkersRun` | overlay/server.py:345-353 | at most as many extractions run as there are workers |
| `Admission.WorkIsBounded` | overlay/server.py:1106-1122 | a deadline on running work does not free its slot: queued plus running work never exceeds the slots |
| `Admission.DrainingTerminates` | overlay/server.py:153-168 | every step of a pool that takes no more requests brings it closer to rest |
| `Admission.DrainNeverStuck` | overlay/server.py:153-168 | a pool that is not at rest always has such a step |
| `Admission.QuiescentIsFree` | overlay/server.py:153-168 | at rest every admitted request has released exactly once and all slots are free |
| `Admission.DrainsToFree` | overlay/server.py:153-168 | from every reachable state a drain exists and ends with all slots free |
| `Readiness.CachedReadyIsFresh` | overlay/server.py:1402-1477 | under every interleaving, a "ready" from the cache is backed by a successful probe that stamped its verdict, or has just set the event, less than the TTL before |
| `Readiness.FailuresAreReprobed` | overlay/server.py:1377-1411 | with the default negative TTL a failure is never answered from the cache |
| `Readiness.NoStampede` | overlay/server.py:1433-1445 | one caller at a time is inside the probe, and it starts one only if the cache has neither a valid ready verdict nor a failure within its TTL |
| `Readiness.ChecksAreRecent` | overlay/server.py:1402-1477 | if no successful probe is held up longer than `d`, every "ready" from the cache rests on checks that ended less than TTL + `d` ago |
| `Readiness.AgesServedIff` | overlay/server.py:1402-1477 | and every such age occurs: the bound is exact |
| `Readiness.ChecksWithinTtlIff` | overlay/server.py:1467-1477 | the checks are always younger than the TTL exactly if no probe is held up |
| `Decimal.ToDecimalIsCanonical` | overlay/body_limit.py:19 | the printed limit has no leading zero and denotes the limit |
| `Decimal.NormalizedIsCanonical` | overlay/body_limit.py:18 | stripping zeros keeps the number and yields its one canonical numeral |
| `Decimal.ExceedsIsNumeric` | overlay/body_limit.py:18-21 | for digit strings of any length the comparison by length and then by characters is the numeric one |
| `BodyLimit.Call` | overlay/body_limit.py:10-42 | the outcome is that of the recursive specification, and the buffer never exceeds the limit |
| `BodyLimit.OutcomeOfUpload` | overlay/body_limit.py:13-42 | the application runs exactly when the headers are acceptable, the total is within the limit and the upload completes; it then gets the concatenation of all chunks; every other ending is determined likewise |
| `BodyLimit.EveryChannelIsAnUpload` | overlay/body_limit.py:23-32 | so that the previous row speaks about every message stream |
| `BodyLimit.ChunkingIsIrrelevant` | overlay/body_limit.py:23-32 | streams with the same bytes and ending have the same outcome, wherever their chunks are cut |
| `BodyLimit.Replay.Receive` | overlay/body_limit.py:33-40 | the buffered body comes first and once, then the real channel |
| `BodyLimit.GovernorAgreesIff` | overlay/request_guards.py:61-74 | string limiter and integer governor give the same verdict on a digit string exactly if it is not longer than the interpreter converts, and always on anything else |
| `BodyLimit.GovernorBehindLimiter` | overlay/request_guards.py:61-74 | what the limiter passes the governor passes, or answers 400 if the one header is longer than that |
| `BodyLimit.LongZeroIsRefused` | overlay/request_guards.py:64-70 | a run of zeros one too long, which the limiter passes at every limit and the governor refuses |
| `BodyLimit.FirstStartIsReported` | overlay/request_guards.py:76-85 | what is reported is the status of the first response start |
| `BodyLimit.Governor.Send` | overlay/request_guards.py:76-85 | every message is passed on, and completion has been reported once as soon as a response has started |
| `Report.EveryFieldOnce` | scripts/release_check.py:189-200 | nine distinct invoice fields are all nine, each exactly once |
| `Report.CountedExactlyOnce` | scripts/release_check.py:160-223 | in an accepted report every indexed document has exactly one row and every field exactly one detail |
| `Report.RecountBounds` | scripts/release_check.py:204-219 | on justified details the counters bound each other, and zero renders or complete refusal holds detail by detail |
| `Report.ReportIsSound` | scripts/release_check.py:353-368 | an accepted report whose gates pass proves that every unanswerable field was refused, nothing ungrounded was rendered anywhere, and more than 95 % of the answerable fields were grounded |
| `Report.GroundedGateIsImplied` | scripts/release_check.py:363-366 | on an accepted report the 95 % gate follows from two of the others |
| `Report.PacksPartitionRows` | scripts/release_check.py:224-232 | summing pack by pack gives the sum over all documents |
| `ReleaseCheck.CheckDetail` | scripts/release_check.py:204-211 | accepts exactly the details whose status fits answerability and evidence |
| `ReleaseCheck.DeriveCounts` | scripts/release_check.py:192-217 | accepts exactly nine-field details without repetition or contradiction, and returns their recount |
| `ReleaseCheck.CheckDocument` | scripts/release_check.py:182-219 | accepts exactly the documents whose six counters recount their details, although it takes two of them from the index |
| `ReleaseCheck.CheckDocuments` | scripts/release_check.py:170-223 | accepts exactly the rows that cover the index once each, and returns the sums per pack |
| `ReleaseCheck.CheckPacks` | scripts/release_check.py:224-232 | accepts exactly the pack rows that agree with the documents, and returns the totals |
| `ReleaseCheck.ValidateReportCoverage` | scripts/release_check.py:160-249 | accepts exactly the reports that cover the manifest, as defined without loops |
| `Harness.Bench.IsExtractionGrounded` | bench/harness.py:113-140 | grounded exactly when the method is not "block", there are anchors, and all of them hold |
| `Harness.Bench.ScoreField` | bench/harness.py:253-375 | appends the field's detail and adds the same contribution to the document, pack and global counters |
| `Harness.Bench.ScoreAnswerable` | bench/harness.py:259-321 | the same for an answerable field |
| `Harness.Bench.ScoreUnanswerable` | bench/harness.py:322-375 | the same for an unanswerable field |
| `Harness.Bench.RunDocument` | bench/harness.py:240-405 | appends a row whose counters recount its details, and moves pack and global counters by the same amounts |
| `Harness.Bench.RunPack` | bench/harness.py:177-426 | passes over missing files and empty packs, and stores the pack's document count and sums |
| `Harness.Bench.RunBenchmark` | bench/harness.py:146-476 | the report of the nested loops is the one defined by recursion over packs, fixtures and fields |
| `ReportAgreement.PacksAgree` | bench/harness.py:412-426 | whatever happens to documents and fields, the pack rows are what the validator expects |
| `ReportAgreement.AcceptedIffReproducible` | scripts/release_check.py:160-249 | for every loadable profile and all field outcomes, the validator accepts the produced report exactly when every file was present and the gate repeated itself |
| `ReportAgreement.ProducerIsMeasurable` | scripts/release_check.py:277-315 | the metrics of an accepted report are never malformed, and insufficient exactly when a population is empty |
| `ReportAgreement.ManifestIsValid` | scripts/release_check.py:107-157 | the manifest of a loadable profile meets what the validator relies on |
| `ReportAgreement.CheckRelease` | scripts/release_check.py:353-368 | benchmark, validation, metrics, regression checks and gates end to end pass exactly when the run was reproducible, the three checks were made and passed, and the gates hold |
| `Iou.MeetIsCommonInterior` | bench/score.py:49-55 | the computed intersection box holds exactly the points strictly inside both boxes, and is empty exactly when there are none |
| `Iou.IouMeaning` | bench/score.py:36-58 | for any box that is the common interior, the result is its area over the area the two boxes cover |
| `Iou.RangeAndSymmetry` | bench/score.py:36-58 | between 0 and 1, in either order the same |
| `Iou.OneIffIdentical` | bench/score.py:36-58 | 1 exactly for two valid boxes with the same four numbers |
| `Iou.ZeroIffApart` | bench/score.py:38-55 | 0 exactly when a box is invalid or no point is strictly inside both |
| `Iou.HalfMeansClose` | bench/score.py:36-58 | at one half or more the areas are within a factor of two, and half of every side is shared |
| `Iou.CoordinatesDoNotMatter` | bench/score.py:36-58 | another origin and another positive scale on each axis change nothing |
| `Score.IndexPredictions` | bench/score.py:347-350 | the dictionary answers every lookup with the last matching prediction |
| `Score.ScoreField` | bench/score.py:363-413 | one labelled field moves exactly the counters of its outcome |
| `Score.ScoreAnswerable` | bench/score.py:363-399 | the same for an answerable field |
| `Score.ScoreUnanswerable` | bench/score.py:400-413 | the same for an unanswerable field |
| `Score.ScoreDocument` | bench/score.py:353-415 | a document's record counts its own fields and the totals grow by them |
| `Score.ScoreCorpus` | bench/score.py:334-422 | all counters are counts of outcomes over all labelled fields, no bad box is counted as blocked, and each document has the record of its last file |
| `Score.Accounting` | bench/score.py:363-413 | every answerable field ends in one of three outcomes and every other field in one of two |
| `Score.AcceptedBoxesAreClose` | bench/score.py:377-389 | a value accepted against a real box stands in a box of similar size that shares half of its sides |
| `Score.BlockedRateIsAllOrNothing` | bench/score.py:311-313 | the blocked rate is 100 without bad boxes and 0 with any |
| `Score.GatesGreenIff` | bench/blind_bench.py:161-167 | the four gates together say exactly: something answerable, no bad box, fewer than one in twenty refused or wrong |
| `Score.DocumentsExplainBadBoxes` | bench/score.py:353-415 | with distinct document ids, the fields the document records leave unexplained add up to the bad boxes |
| `Ingress.WalkIsRight` | overlay/server.py:89-109 | every verdict of the walk is justified by the tree: clean means all nodes good, the others name a bad node |
| `Ingress.CleanOrWitness` | overlay/server.py:89-109 | clean exactly when no key or string has a surrogate and no node is more than 32 deep |
| `Ingress.ContainsSurrogate` | overlay/server.py:89-109 | the loop over the explicit stack terminates with the verdict of the recursive walk |
| `Ingress.RejectLoneSurrogates` | overlay/server.py:112-120 | lets exactly the clean and shallow bodies through, unchanged |
| `Ingress.OrderDoesNotMatter` | overlay/server.py:107-108 | the order in which a collection yields its elements does not affect acceptance |

## Left out

- Rate limiter: `int(cap * 0.9)` is `cap * 9 / 10`; clock values are reals; how the client key is derived from the request is not modelled, the key is an input.
- HistoryChain: entries that lack `hash` or `prev_hash` altogether; the digest and the JSON encoding are one parameter, of which nothing is assumed, so collisions are exhibited and not excluded.
- Ledger: attempt timestamps and output text, the `wont_fix` note on a task or gate, messages and `status`; `parse_signature` and the running of oracle scripts (their outcome and signature are inputs); the content rules of the individual evidence validators, manifest age, commit and signature, each reduced to whether it accepts.
- Ledger: a state file whose tasks lack mandatory keys, and duplicate dependency entries with other meanings than membership.
- Transactions: the loss of power between fsync and rename, and leftover temporary files; the rename is atomic.
- Admission: a `submit` that raises although it has queued the work, and the executor's own threads and queue order; workers pick any queued job. It is a step relation and not a class, because its promises are about interleavings.
- Readiness: the dependency checks and the synthetic extraction are one outcome; `/readyz` response bodies; assumes a monotonic clock that starts at 0 or later.
- BodyLimit.Call: non-HTTP scopes, a negative limit, and suspension of the task between messages; a channel that says nothing more is the outcome `Waiting`.
- BodyLimit.GovernorAgreesIff: the longest string the interpreter converts is a parameter; an interpreter told to have no such limit is one with a limit no header reaches.
- Report: wrong JSON types (every field of a report has its type here), and the per-document and per-pack rates, which the validator does not read.
- Report: the rounding of displayed percentages is one function shared by producer and validator; the gates compare integers.
- ReportAgreement: the corpus hash is one given string on both sides; reading and hashing fixture files, ingestion, packs, the verifier and the quality gate are reduced to the outcome they give for each field; what each regression check does is reduced to its verdict.
- ReleaseCheck.CheckPacks: sums over packs in manifest order, where the program follows the order of the report's dictionary.
- Iou: floating-point rounding; coordinates are reals.
- Score: the value matcher is an arbitrary predicate; a label whose `anchor` is null; reading label files from disk, which come as a sequence in name order.
- Ingress: strings are sequences of code points, and non-string scalars are one case; `IngressModel`'s other field validation.
- Left out altogether: routing, CORS, authentication, tracing, the sealed profile, release evidence, hardware checks, percentile helpers, document writers, installers and the web interface. They would add members without a hard property, or are calls into libraries.
