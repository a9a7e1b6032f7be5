# SiftKit: verified models of its coordination, arithmetic and transcript logic

Dafny models of the parts of SiftKit whose correctness rests on an argument over a run, a loop or a fold.
Run `dafny verify dfyconfig.toml` in this directory to check everything.

A component that changes things step by step appears twice: as pure functions that say what happens, and as a
class or a method with the source's own loops and fields whose contract ties it to those functions. The theorems are lemmas about the functions, so they hold of the methods.

- `MaintenanceProtocol`, `AssistantService` — background drains, whole-database maintenance and
  model-residency changes on one event loop. Code between two awaits is one step; calls interleave freely.
- `Throughput`, `ThroughputLaws` — token counts, durations and reference weights observed per stream frame,
  merged per cohort, turned into rates and compared with a tolerance.
- `ReadRanges`, `OutputFit` — which lines of a file have not been shown yet, and how much of a tool's output
  fits a token budget.
- `RestartProtocol`, `RestartSupervisor` — the development supervisor that restarts its child after edits.
- `AgentLoop` — the turn loop against arbitrary adapters.
- `MatrixRun`, `MatrixRunner` — the benchmark matrix with its cached launch signature, failures and interrupts.
- `LanePool`, `LaneRunner` — lanes that share a claim counter and fill one results array.
- `FreshIds`, `SettingsDraft`, `SettingsDraftEditor` — fresh ids and the settings draft's action language.
- `ImageRetention`, `ThinkingRetention` — transcript pruning.
- `OutputReducers`, `ErrorContext` — run-length compression of repeated lines and the lines around errors.
- `Prelude` — optional values, sums, decimal rendering.

What adapters, jobs, children, tests and engines do is arbitrary: it is chosen by events, scripts or function
parameters, and every theorem quantifies over them.

## Findings

Where a promise does not hold on all inputs, the exact condition is proved, and a lemma gives a failing input.

- A truncated fit can keep nothing although one segment fits: the search probes 2 and then 0 of four segments,
  never 1 (`OutputFit.OneMoreCanFit`). The condition is `OutputFit.OneMoreWouldExceedIff`.
- A request's reference rate need not be the rate the backend reported last: a later rate without a time is
  ignored, a later time without a rate rescales the old weight, and a time of zero leaves no rate
  (`ThroughputLaws.LastRateMissed`). The condition, over all frame sequences, is
  `ThroughputLaws.ReferenceIsReportedRate`.
- A complete cohort's reference rate can exceed every rate in it: a request whose time is restated as zero keeps
  its weight, and with a request of rate 1 gives 11 (`ThroughputLaws.TimelessWeightBreaksMean`). It lies between
  its members' rates exactly when the weight of the members without a rate is at most what the others fall short
  of the largest (`ThroughputLaws.RateLiesBetweenIff`); it is the mean of the members with a rate exactly when
  there is no such weight (`ThroughputLaws.RateIsTimedMeanIff`).
- Thinking blocks that are all blank are never pruned (`ThinkingRetention.BlankBlocksStay`,
  `ThinkingRetention.AtMostOneIff`).
- Three draft edits lose the one summary default of summary kind that a saved configuration needs
  (`SettingsDraft.SummaryDefaultLost`, `SettingsDraft.DefaultKeptIff`), and deleting a model preset just added need
  not give back the active one (`SettingsDraft.ActiveModelLost`, `SettingsDraft.DeleteUndoesAddModelIff`).
- A repetition marker is ordinary text, so two outputs can be compressed to the same text
  (`OutputReducers.MarkerLineConfused`); `OutputReducers.RenderedUnambiguousIff` gives the sets of lines for which
  that happens.
- With a concurrency below 1 the lane pool resolves to a list of holes (`LanePool.NoLaneLeavesHoles`,
  `LanePool.CompleteIff`).
- A deleted source file put back with its old time asks for no restart beyond the deletion's
  (`RestartProtocol.RestoredFileMissed`, `RestartProtocol.ChangeCountsIff`).

## Model

| member | source | states |
|---|---|---|
| MaintenanceProtocol.InvStep | src/assistant/assistant-service.ts:665-692 | any step of any call, in any order, keeps the joint invariant over the blocker count, the chain order, the captured drain and the active drain |
| MaintenanceProtocol.SafeInEveryInterleaving | src/assistant/assistant-service.ts:676-692 | in every interleaving no drain runs beside a maintenance work, drains do not overlap, works do not overlap and have started exactly in call order, and the blocker count is the number of operations not yet released |
| MaintenanceProtocol.WorkStartsAlone | src/assistant/assistant-service.ts:682-685 | when a work may start, every earlier work has settled (failed or not), no drain is running, and every tick is refused |
| MaintenanceProtocol.PendingOperationsHoldDrains | src/assistant/assistant-service.ts:785-791 | a tick is blocked exactly while some maintenance or residency operation is pending, and then changes nothing; while anyone waits, the drain waited for claims no further job |
| MaintenanceProtocol.TickAnswers | src/assistant/assistant-service.ts:785-805 | in every interleaving a tick is blocked exactly while an operation is pending, and then reports how many; otherwise disabled exactly when the service is, already running exactly while a drain is not cleared; and only when none of these holds it changes anything: it appends one drain |
| MaintenanceProtocol.CallsAreTaken | src/assistant/assistant-service.ts:665-681 | calls, ticks and requests are never held up, and a call at once blocks the next tick |
| MaintenanceProtocol.NewDrainMayClaim | src/assistant/jobs/job-runner.ts:97-98 | a drain that has just started may claim jobs, whatever preempted the one before it |
| MaintenanceProtocol.InteractiveRequestPreempts | src/assistant/assistant-service.ts:654-658 | after an interactive request no drain claims a job until another drain is started |
| MaintenanceProtocol.WorkOutcomeReported | src/assistant/assistant-service.ts:687-691 | a call reports what its own work settled with, whatever happens in between |
| MaintenanceProtocol.ResidencyReturnsQuiet | src/assistant/assistant-service.ts:665-672 | when a residency call can return, the drain active at its call has ended, no drain is running, and none has started since the call |
| MaintenanceProtocol.ResidencyRecordKept | src/assistant/assistant-service.ts:665-672 | what a residency call captured stays its record until it returns, whatever else happens |
| MaintenanceProtocol.ClearGuardAlwaysHolds | src/assistant/assistant-service.ts:806-810 | the identity check before clearing the active drain never fails |
| MaintenanceProtocol.CompletionCounts | src/assistant/assistant-service.ts:680-692 | each completion step, a failing work's included, settles exactly one owed step |
| MaintenanceProtocol.SomeCompletionEnabled | src/assistant/assistant-service.ts:680-692 | there is no deadlock: while a step is owed, a completion step can be taken |
| MaintenanceProtocol.NothingOwedIsQuiet | src/assistant/assistant-service.ts:207-212 | nothing is owed exactly when every call is released, every drain cleared, the count is 0 and every call's work has run once in call order |
| MaintenanceProtocol.EveryRunWindsDown | src/assistant/assistant-service.ts:680-692 | without new calls every run ends quiet after exactly the owed number of steps, and then the next tick of an enabled service starts a drain |
| AssistantServiceModel.AssistantService.RunMaintenance | src/assistant/assistant-service.ts:680-686 | counts the call, chains it after the latest one and becomes the end of the chain; nothing else changes |
| AssistantServiceModel.AssistantService.PreemptAndCapture | src/assistant/assistant-service.ts:813-817 | asks for preemption and reads the active drain, in this order, within one step |
| AssistantServiceModel.AssistantService.TakeTurn | src/assistant/assistant-service.ts:682-683 | preempts and captures the drain that is active when the call's turn comes |
| AssistantServiceModel.AssistantService.ReleaseMaintenance | src/assistant/assistant-service.ts:687-691 | uncounts the call and hands its caller the work's own outcome |
| AssistantServiceModel.AssistantService.OnModelResidencyChanging | src/assistant/assistant-service.ts:665-668 | counts the call, preempts and captures the active drain |
| AssistantServiceModel.AssistantService.ReturnResidency | src/assistant/assistant-service.ts:669-671 | uncounts the call once its await is done |
| AssistantServiceModel.AssistantService.DrainJobs | src/assistant/assistant-service.ts:785-805 | refuses in the order blocked, disabled, already running; otherwise starts a drain, which resets the preemption flag unless its set-up throws |
| AssistantServiceModel.AssistantService.ClearDrain | src/assistant/assistant-service.ts:806-810 | clears the active drain only when it is still this one |
| AssistantServiceModel.EnqueueWaitingCaptures | src/assistant/assistant-service.ts:852-874 | the captures queued are exactly the first `budget` waiting ones, state by state, over one shared budget; none when the capability is unusable |
| Throughput.ComputeSumField | src/lib/inference-throughput.ts:149-159 | the sum of the stated values, absent exactly when none is stated |
| Throughput.ComputeSumInt | src/lib/inference-throughput.ts:161-169 | the sum of a counter over the cohort |
| ThroughputLaws.BodySays | src/lib/inference-throughput.ts:90-117 | one body is one request; prompt tokens count without the cached ones (none when absent), never below zero, fractions cut off; completion tokens as they are; each side takes its own time in milliseconds and its own rate times seconds as weight; a side is missing exactly when a field of it is; a body without usage is measured in nothing |
| ThroughputLaws.WholePromptCount | src/lib/inference-throughput.ts:98-101 | whole prompt and cached counts are subtracted exactly, down to zero |
| ThroughputLaws.ObservationReplaces | src/lib/inference-throughput.ts:119-132 | a frame replaces what it states and keeps the rest, as one request; nothing observed changes nothing |
| ThroughputLaws.TwoMerged | src/lib/inference-throughput.ts:149-181 | merging two adds what both state, keeps what one states, and adds the counters |
| ThroughputLaws.RateTimesTime | src/lib/inference-throughput.ts:196-205 | there is a rate exactly when nothing is missing and time has passed, and over its time it gives back the count |
| ThroughputLaws.ComparisonReports | src/lib/inference-throughput.ts:229-253 | a comparison reports both rates as given, the deviation in percent of a reference that is not zero, and a zero reference as its reason |
| ThroughputLaws.MergeIdentity | src/lib/inference-throughput.ts:76-79 | the empty fold is the two-sided identity of merging, and merging nothing gives it |
| ThroughputLaws.MergeFolds | src/lib/inference-throughput.ts:189-194 | merging a concatenation is combining the two merges, in every field and counter |
| ThroughputLaws.AnyGrouping | src/lib/inference-throughput.ts:183-194 | however requests are grouped into stages, merging the stages gives the fold of all requests |
| ThroughputLaws.AnyOrder | src/lib/inference-throughput.ts:183-194 | any permutation of the requests gives the same fold |
| ThroughputLaws.EveryFoldWellFormed | src/lib/inference-throughput.ts:90-194 | every fold built by reading, observing and merging has equal internal and reference durations, whole token counts, no negative value, and missing counters that never claim more than the requests or hide an absent field |
| ThroughputLaws.MatchIsThreshold | src/lib/inference-throughput.ts:229-253 | two rates match exactly when their distance is at most 5 percent of the reference, in both directions; a zero reference matches only zero |
| ThroughputLaws.MatchIffCloseCounts | src/lib/inference-throughput.ts:196-253 | a fold matches exactly when nothing is missing on either side, its time is positive, and its token count is within 5 percent of its reference weight |
| ThroughputLaws.MatchingPartsMatchMerged | src/lib/inference-throughput.ts:171-253 | if every fold of a nonempty cohort matches its own reference, the merged cohort matches, for prompt and decode separately |
| ThroughputLaws.DisagreeingDurationsBreakMatch | src/lib/inference-throughput.ts:171-181 | without the equal durations two matching metrics can merge into a mismatch |
| ThroughputLaws.ReferenceRateIsMean | src/lib/inference-throughput.ts:220-226 | a cohort's reference rate lies in every interval that holds its members' rates, where members without a rate brought neither weight nor time |
| ThroughputLaws.CohortHasRateIff | src/lib/inference-throughput.ts:196-226 | a cohort has a reference rate exactly when no member is missing its reference and some member has a rate |
| ThroughputLaws.RateIsTimedMeanIff | src/lib/inference-throughput.ts:171-226 | for any complete cohort in which some member has a rate, the merged rate of those members lies between theirs, the cohort's is never below it, and is that rate exactly when every other member brought no weight |
| ThroughputLaws.RateLiesBetweenIff | src/lib/inference-throughput.ts:171-226 | such a cohort's rate lies between the smallest and largest rate of its members exactly when the other members' weight is at most what these fall short of the largest rate |
| ThroughputLaws.TimelessWeightBreaksMean | src/lib/inference-throughput.ts:126-131 | two complete requests, one of rate 1 and one whose time was restated as zero, make a cohort of rate 11 |
| ThroughputLaws.HarmlessIffNeutral | src/lib/inference-throughput.ts:196-226 | a complete metric without a rate leaves the rate of every fold it is merged with alone exactly when it adds no weight and no time |
| ThroughputLaws.RateNeedsEveryRequest | src/lib/inference-throughput.ts:196-226 | one request missing a side withholds the cohort's rate on that side |
| ThroughputLaws.BodiesAreFrames | src/lib/inference-throughput.ts:138-147 | observing whole bodies observes the prompt and the completion frames independently |
| ThroughputLaws.FramesFoldToLastStated | src/lib/inference-throughput.ts:119-132 | any nonempty frame sequence of one request folds to one request whose every field is the last stated one |
| ThroughputLaws.MissingIffNeverStated | src/lib/inference-throughput.ts:45-62 | that request is missing its internal side exactly when no frame stated a token count or none a time, and its reference side exactly when no single frame stated both a rate and a time |
| ThroughputLaws.ReplayChangesNothing | src/lib/inference-throughput.ts:134-147 | a final frame sent again changes nothing |
| ThroughputLaws.ReferenceIsRescaledRate | src/lib/inference-throughput.ts:45-48 | for any frames, the reference rate is that of the last frame with a rate and a time, rescaled to the last time, and there is one exactly when such a frame exists and the last time is positive |
| ThroughputLaws.ReferenceIsReportedRate | src/lib/inference-throughput.ts:45-48 | for any frames, the reference rate is the rate reported last exactly when none was reported, or the last time is positive and the last frame with a rate and a time has the same rate times time as the last rate and the last time |
| ThroughputLaws.RateAloneIgnored | src/lib/inference-throughput.ts:126-131 | a frame that reports a rate without a time changes nothing |
| ThroughputLaws.TimeAloneRescales | src/lib/inference-throughput.ts:126-131 | a frame that reports a time without a rate keeps the old weight over the new time |
| ThroughputLaws.LastRateMissed | src/lib/inference-throughput.ts:126-131 | concrete frames for the three ways to miss the rate reported last: rate alone, time alone, time zero |
| ReadRanges.FindContiguousUnreadRange | src/tool-output-fit.ts:131-167 | returns the first maximal run of lines at or after the start that no returned range covers, or reports none exactly when all are covered; the third exit is unreachable |
| ReadRanges.ScanSorted | src/tool-output-fit.ts:146-166 | the scan over sorted nonempty ranges, overlapping or not, finds that run |
| ReadRanges.FirstUnreadUnique | src/tool-output-fit.ts:131-167 | that specification leaves one answer |
| ReadRanges.MergeRange | src/repo-search/engine/read-overlap.ts:54-77 | recording a range covers exactly the old lines and the new ones; a nonempty one leaves the list sorted and apart |
| ReadRanges.UnreadLinesMeaning | src/tool-output-fit.ts:131-167 | the specification list holds each uncovered line once, ascending, and nothing else |
| ReadRanges.ReadUntilDone | src/repo-search/engine/repo-tools.ts:494-528 | asking from a fixed start and recording any nonempty prefix of each answer ends, and hands out exactly the lines uncovered at the outset, each once and in order |
| OutputFit.CollectParts | src/tool-output-fit.ts:84-110 | header first, then body and notice with the notice on the side that was cut, empty pieces left out |
| OutputFit.CandidateReads | src/tool-output-fit.ts:83-111 | the text, spelled out: the header leads, in tail mode the notice of how many segments are missing stands before the kept tail, in head mode after the kept head, with nothing missing there is none, empty pieces leave no separator, and the last trimming takes nothing away |
| OutputFit.SearchLargest | src/tool-output-fit.ts:58-72 | for any cost function, finds a count below the total that fits unless it is 0 and beyond which one more does not fit unless nothing on the way down fits, in at most log2 probes |
| OutputFit.FitSegments | src/tool-output-fit.ts:35-81 | within budget everything is returned; otherwise strictly fewer segments, costing at most half the budget (one token for a budget of one) unless none is kept, and at most 2 + floor(log2(segments + 1)) counter calls |
| OutputFit.FitWithinHalf | src/tool-output-fit.ts:36-80 | in terms of the budget as given: everything is returned exactly when it costs at most the budget or one token; otherwise some is left out, twice the cost of what is kept is at most the budget unless it costs one token or nothing is kept, and one more segment would not do |
| OutputFit.ProbeHalves | src/tool-output-fit.ts:62-71 | one probe leaves at most half of the interval on either side |
| OutputFit.MonotoneFitIsLargest | src/tool-output-fit.ts:58-72 | when fitting is monotone, the count found is the largest that fits |
| OutputFit.OneMoreWouldExceedIff | src/tool-output-fit.ts:58-72 | one more segment than kept would exceed the target exactly unless nothing probed on the way down fits and one segment does |
| OutputFit.OneMoreCanFit | src/tool-output-fit.ts:58-72 | a concrete fit that keeps nothing although one segment fits |
| RestartProtocol.InvStep | scripts/start-dev-restarter.ts:57-99 | every event keeps: the newest child is the current one and the only one that can live, waiters wait for it, and an accepted change is in it or a restart is on its way |
| RestartProtocol.SupervisionIsSafe | scripts/start-dev-restarter.ts:57-99 | in every run never two live children, none at a graceful exit, and when no timer is pending, no restart in flight and nobody stopping, the child was spawned after the last accepted change |
| RestartProtocol.NoStartAfterStopping | scripts/start-dev-restarter.ts:65-67 | after a stop request no child is ever started and no change accepted |
| RestartProtocol.ChangeCountsIff | scripts/start-dev-restarter.ts:18-23 | an event counts exactly when the stamp differs and, for a file not recorded before, is newer than the watch |
| RestartProtocol.EventAcceptedIff | scripts/start-dev-restarter.ts:71-86 | an event asks for a restart exactly when the file is watched, its stamp differs from the recorded one, it is not one that appears with a time from before the watch, and nobody is stopping; it is then one more accepted change with the timer pending, and nothing but these and the stamps changes |
| RestartProtocol.RestartRounds | scripts/start-dev-restarter.ts:57-69 | a timer begins a restart or asks for one more round; a round starts a child with every change so far once the current one has gone, and goes round again exactly when asked; stopping ends it without a child |
| RestartProtocol.StopWaits | scripts/start-dev-restarter.ts:93-99 | a stop request drops the timer and waits for the current child, and the process exits only when that has gone |
| RestartProtocol.StartsWithOneChild | scripts/start-dev-restarter.ts:88-91 | the supervisor starts with one live, up-to-date child and nothing under way, and takes events until it exits |
| RestartProtocol.RepeatedEventIgnored | scripts/start-dev-restarter.ts:71-79 | the recorded stamp becomes the current one, so the same event again changes nothing, and other files' stamps stay |
| RestartProtocol.RestoredFileMissed | scripts/start-dev-restarter.ts:19-23 | a file deleted and put back with a time from before the watch counts as one change, not two |
| RestartProtocol.CompletionPays | scripts/start-dev-restarter.ts:57-69 | every timer, exit and continuation lowers the owed work |
| RestartProtocol.SupervisorSettles | scripts/start-dev-restarter.ts:57-99 | once edits stop, the supervisor settles within the owed number of steps: up to date, or exited |
| RestartSupervisorModel.RestartSupervisor.OnSourceEvent | scripts/start-dev-restarter.ts:71-86 | records the stamp, and arms the timer exactly for an accepted change |
| RestartSupervisorModel.RestartSupervisor.OnTimer | scripts/start-dev-restarter.ts:57-65 | queues behind a restart in flight, otherwise begins one on the current child |
| RestartSupervisorModel.RestartSupervisor.ResumeRestart | scripts/start-dev-restarter.ts:66-68 | starts a child unless stopping, and goes round again exactly when another restart was queued |
| RestartSupervisorModel.RestartSupervisor.StopAll | scripts/start-dev-restarter.ts:93-97 | marks stopping, drops the timer and waits for the current child |
| RestartSupervisorModel.RestartSupervisor.ResumeStop | scripts/start-dev-restarter.ts:97-98 | the process exits once the awaited child has |
| AgentLoopModel.AgentLoop.JudgeActions | src/agent-loop/agent-loop.ts:95-111 | evaluates finishes in order until one is accepted, asks to stop or throws; collects tool actions in order |
| AgentLoopModel.AgentLoop.RunLoop | src/agent-loop/agent-loop.ts:40-128 | the loop does what the turn-by-turn specification says, with missing adapters refused before anything changes |
| AgentLoopModel.JudgeSettled | src/agent-loop/agent-loop.ts:96-111 | once a verdict is reached later actions are not looked at |
| AgentLoopModel.JudgeIsFirst | src/agent-loop/agent-loop.ts:96-109 | the verdict on a turn is that of its first finish that is not simply rejected: thrown, accepted with the evaluation's text or else the action's, or asked to stop |
| AgentLoopModel.ToolActionsKept | src/agent-loop/agent-loop.ts:95-111 | tool actions are kept one by one in order and finishes left out |
| AgentLoopModel.TotalsGrow | src/agent-loop/agent-loop.ts:130-138 | each total grows by what a turn reports, nothing when it does not |
| AgentLoopModel.RunFromKeeps | src/agent-loop/agent-loop.ts:45-127 | from any state the loop can be in, the rest of the run keeps all promises |
| AgentLoopModel.EveryRunKeepsItsPromises | src/agent-loop/agent-loop.ts:40-139 | for arbitrary adapters: at most maxTurns model calls, strictly increasing turn numbers, every parsed turn recorded as given, totals equal to the sums over recorded turns, tools run exactly on the turns that ask for them after all their finishes were rejected, with those actions in order and the adapter's results, and finished exactly when the last recorded turn has an accepted finish, having run no tools, with the text it was accepted with; any other result has no text |
| AgentLoopModel.RunEndsAtFirst | src/agent-loop/agent-loop.ts:45-127 | a fresh loop goes on until the first turn whose adapters do not let it go on, and ends as that turn's first deciding call says: aborted, thrown, or finished with the accepted text; without one it ends at maxTurns; the model is asked once on every turn reached and prepared |
| AgentLoopModel.FateUnique | src/agent-loop/agent-loop.ts:45-127 | how a turn decides is unique |
| MatrixRun.SignatureEqualIff | bench/benchmark-matrix/launcher.ts:26-34 | two launch signatures agree exactly when the joined paths, the sizes and the reasoning argument agree |
| MatrixRun.SignatureReads | bench/benchmark-matrix/launcher.ts:26-34 | the five parts in order, with the reasoning left to the script unless it is passed |
| MatrixRun.SignatureIdentifiesLaunchIff | bench/benchmark-matrix/launcher.ts:26-34 | over sets of paths, equal signatures mean equal launches exactly when no script path continues another past a separator the way a model path begins |
| MatrixRun.InterruptLeavesPlainFailure | bench/benchmark-matrix/runner.ts:110-127 | a run failed first by the signal handler and then by the catch block ends like a plainly failed one |
| MatrixRun.InterruptSeenAtOnce | bench/benchmark-matrix/runner.ts:110-127 | the signal handler at once fails the session and the active running entry with the interrupt's message and touches nothing else |
| MatrixRun.VisitRunKeeps | bench/benchmark-matrix/runner.ts:136-216 | one iteration, whatever its awaits do, keeps the record a settled prefix and the engine's signature true |
| MatrixRun.EveryMatrixRun | bench/benchmark-matrix/runner.ts:106-268 | recorded runs are a prefix of the selected ones, all completed but possibly a failed last; completed exactly when all are; every benchmark starts on the last successful launch's signature; only the matrix's own targets are launched; restarts attempted are the signature changes along the prefix; the call throws exactly on a failed session or restore |
| MatrixRun.AwaitsDecide | bench/benchmark-matrix/runner.ts:129-268 | what the awaits decide: nothing runs when the baseline's launch fails; otherwise runs are reached up to the first whose relaunch or benchmark does not complete, each record is completed with its benchmark's address or failed with that await's message, the log holds exactly the launches and benchmarks this asks for, the session is completed exactly when all complete, and the error thrown is the captured message, the restore's, or both |
| MatrixRun.EveryBenchmarkOnOwnLaunchIff | bench/benchmark-matrix/runner.ts:164-183 | over sets of paths, in every matrix each benchmark runs on an engine last launched for its own script, model, sizes and reasoning argument exactly when the sets are not confusable |
| MatrixRun.PlainPathsRunOwnLaunches | bench/benchmark-matrix/runner.ts:164-183 | when no start script's path holds the separator, under any outcomes each benchmark runs on an engine last launched for its own script, model, sizes and reasoning argument |
| MatrixRunnerModel.MatrixRunner.HandleInterrupt | bench/benchmark-matrix/runner.ts:110-127 | fails the active running entry and the session, and nothing else |
| MatrixRunnerModel.MatrixRunner.CatchRun | bench/benchmark-matrix/runner.ts:196-215 | fails the last entry and the session with the error's message and passes the error on |
| MatrixRunnerModel.MatrixRunner.Visit | bench/benchmark-matrix/runner.ts:136-216 | one iteration: record, relaunch only on a changed signature, benchmark, complete or fail |
| MatrixRunnerModel.MatrixRunner.RunMatrix | bench/benchmark-matrix/runner.ts:129-268 | baseline, runs, restore attempted in every case, and the combined error |
| LanePool.Launched | scripts/analysis/coverage-isolation-runner.ts:137-151 | launching puts lane k on test k, all within the list |
| LanePool.SettleKeepsInv | scripts/analysis/coverage-isolation-runner.ts:140-148 | a settlement keeps every started test in exactly one place, a lane or its result slot |
| LanePool.SettleInFlight | scripts/analysis/coverage-isolation-runner.ts:140-148 | a settlement takes one test out of flight and conserves the count of settled tests |
| LanePool.EveryScheduleKeeps | scripts/analysis/coverage-isolation-runner.ts:133-153 | in every schedule tests start once each and in order, never more in flight than lanes, and no schedule outlasts the tests |
| LanePool.LanesStayBusy | scripts/analysis/coverage-isolation-runner.ts:135-151 | there are as many lanes as concurrency and tests allow, and while a test is left to start each lane is running one or was rejected |
| LanePool.ReplyAtAnyMoment | scripts/analysis/coverage-isolation-runner.ts:152-153 | at any moment the call has failed exactly when a lane was rejected, is pending exactly while a test is in flight and none was, and resolves to the results only with none in flight |
| LanePool.PoolSettles | scripts/analysis/coverage-isolation-runner.ts:133-153 | at the end the call failed exactly when a lane was rejected, every slot holds its own test's answer exactly when no lane was rejected and there was a lane or nothing to do, and a test is left unstarted only when every lane was rejected |
| LanePool.CompleteIff | scripts/analysis/coverage-isolation-runner.ts:127-154 | at the end the call has resolved to every test's own answer exactly when every test answers and there was a lane or nothing to run |
| LanePool.NoLaneLeavesHoles | scripts/analysis/coverage-isolation-runner.ts:133-153 | two tests and a concurrency of 0 resolve at once to two holes |
| LaneRunnerModel.LaneRunner.constructor | scripts/analysis/coverage-isolation-runner.ts:133-151 | an array of holes, the counter, and the lanes launched one after another |
| LaneRunnerModel.LaneRunner.ClaimNext | scripts/analysis/coverage-isolation-runner.ts:141-147 | claims the counter's value, and starts its test if there is one |
| LaneRunnerModel.LaneRunner.OnSettled | scripts/analysis/coverage-isolation-runner.ts:140-148 | stores the answer in the test's own slot and claims again, or ends the lane |
| LaneRunnerModel.LaneRunner.AwaitAll | scripts/analysis/coverage-isolation-runner.ts:152-153 | fails on any rejected lane, resolves to the results when all are done |
| FreshIds.CandidatesDistinct | dashboard/src/model-runtime-presets.ts:20-24 | different counters give different candidate ids |
| FreshIds.Pigeonhole | dashboard/src/model-runtime-presets.ts:20-24 | a list cannot hold more distinct candidates than it has places |
| FreshIds.GetUniqueId | dashboard/src/model-runtime-presets.ts:12-25 | the loop ends for every list and returns an id that is not in it, the base or the first free numbered one |
| SettingsDraft.ApplyKeepsValid | dashboard/src/settings-draft-editor.ts:147-311 | every action is refused with the draft unchanged or keeps every integrity rule |
| SettingsDraft.IntegrityOverAnySequence | dashboard/src/settings-draft-editor.ts:147-454 | over any actions: unique ids, an existing active model preset, no dangling model reference, at least one model preset, at most one summary default, and a list the catalog accepts |
| SettingsDraft.CatalogAcceptsMembers | src/preset-catalog.ts:208-225 | with unique ids, the catalog's first-match lookups decide exactly that every built-in is present, built in and undeletable and every other preset is neither |
| SettingsDraft.FieldEditDoes | dashboard/src/settings-draft-editor.ts:200-240 | an edit of one preset is refused exactly for an unknown preset, an unknown model or an autoload index out of range, and otherwise stores its value in its field of that preset and changes nothing else |
| SettingsDraft.DefaultMoveDoes | dashboard/src/settings-draft-editor.ts:340-345 | marking the default is refused exactly for an unknown id and otherwise marks every preset by its id |
| SettingsDraft.PresetAddDoes | dashboard/src/settings-draft-editor.ts:347-371 | adding is refused exactly for an id in use and otherwise appends an unrouted custom summary preset |
| SettingsDraft.PresetDeleteDoes | dashboard/src/settings-draft-editor.ts:373-379 | deleting is refused exactly for an unknown or undeletable preset and otherwise leaves the presets of other ids |
| SettingsDraft.WithoutOne | dashboard/src/settings-draft-editor.ts:378 | with distinct ids those are all but the one, in order |
| SettingsDraft.ModelEditDoes | dashboard/src/settings-draft-editor.ts:250-304 | selecting, relabelling and editing a model preset are refused exactly for an unknown id and otherwise change just the active id, the label or the settings |
| SettingsDraft.ModelAddDoes | dashboard/src/model-runtime-presets.ts:46-53 | appends a copy of the active model preset, the first one if the active id is stale, under a new id that becomes active |
| SettingsDraft.ModelDeleteRefused | dashboard/src/settings-draft-editor.ts:420-431 | refused for an unknown id, then for the only model preset, then for one in use, and for nothing else |
| SettingsDraft.ModelDeleteDoes | dashboard/src/model-runtime-presets.ts:65-66 | takes out just the one model preset |
| SettingsDraft.AssignmentsAre | dashboard/src/model-runtime-presets.ts:55-58 | the labels an error names are those of the presets routed to the model preset, each once and in order |
| SettingsDraft.ModelAdded | dashboard/src/model-runtime-presets.ts:46-53 | adding a model preset never fails on a valid draft and keeps every rule |
| SettingsDraft.ModelDeleted | dashboard/src/model-runtime-presets.ts:60-73 | a deletion that is not refused keeps the rules, the active id included |
| SettingsDraft.BrokenIff | dashboard/src/model-runtime-presets.ts:60-73 | an error is raised after the list was replaced exactly when an unassigned id shared by every one of several model presets is deleted |
| SettingsDraft.DistinctIdsNeverBreak | packages/contracts/src/config.ts:109-123 | with distinct model preset ids, which the schema enforces, no error leaves the draft changed |
| SettingsDraft.DefaultKeptIff | packages/contracts/src/config.ts:341-363 | an action, applied or refused, leaves the one summary default of summary kind exactly when it is none of: deleting it while deletable, giving it another kind, making a preset of another kind the default |
| SettingsDraft.SummaryDefaultLost | packages/contracts/src/config.ts:341-363 | two edits of a valid draft of the six built-in presets that lose it |
| SettingsDraft.DeleteUndoesAdd | dashboard/src/settings-draft-editor.ts:347-379 | deleting a preset just added gives back the draft |
| SettingsDraft.DeleteUndoesAddModelIff | dashboard/src/model-runtime-presets.ts:46-73 | deleting a model preset just added gives back the list, and the draft exactly when the first model preset was active |
| SettingsDraft.ActiveModelLost | dashboard/src/model-runtime-presets.ts:46-73 | a draft with the second of two model presets active, which ends with the first active |
| SettingsDraft.DeleteKeepsActive | dashboard/src/model-runtime-presets.ts:68-72 | deleting another model preset leaves the active one active; deleting the active one makes the first active |
| SettingsDraftEditorModel.DraftEditor.Apply | dashboard/src/settings-draft-editor.ts:147-311 | one action on the configuration in place, with the source's errors |
| SettingsDraftEditorModel.DraftEditor.MarkSummaryDefault | dashboard/src/settings-draft-editor.ts:340-345 | the loop marks the named preset and unmarks all others |
| SettingsDraftEditorModel.DraftEditor.GetActiveModelPreset | dashboard/src/model-runtime-presets.ts:27-36 | returns the active model preset or the first one, and makes it active; none exactly for an empty list |
| SettingsDraftEditorModel.DraftEditor.AddModelPreset | dashboard/src/model-runtime-presets.ts:46-53 | pushes a copy of the active model preset under a fresh id and makes it active |
| SettingsDraftEditorModel.DraftEditor.DeleteModelPreset | dashboard/src/settings-draft-editor.ts:420-431 | refuses an unknown, final or assigned model preset, otherwise removes it and repairs the active id |
| ImageRetention.ImagesExact | src/image-retention-policy.ts:29-35 | the collected positions are all images of the transcript, in order |
| ImageRetention.DropOldest | src/image-retention-policy.ts:42-52 | replacing the oldest image leaves the positions of the others |
| ImageRetention.NewestImagesSurvive | src/image-retention-policy.ts:36-53 | the survivors are exactly the newest `retention` images at their positions; a negative retention keeps all |
| ImageRetention.OnlyOldestImagesChange | src/image-retention-policy.ts:40-52 | nothing but the oldest images changes: other parts, messages, order and fields stay |
| ImageRetention.PruneReportsKeys | src/image-retention-policy.ts:41-48 | the dropped keys are the path keys of the messages of the dropped images, one for each, oldest first |
| ImageRetention.DroppedReadsAsLabel | src/image-retention-policy.ts:45-51 | each dropped image becomes the text that names it by the label of its message's parts as they were when its turn came |
| ImageRetention.LabelReads | src/llm-protocol/image-attachments.ts:129-136 | a label is the trimmed text of all text parts joined by spaces, or just image |
| ImageRetention.PruneTwice | src/image-retention-policy.ts:36-39 | a second prune finds nothing to do |
| ImageRetention.PruneThenAppend | src/image-retention-policy.ts:25-54 | pruning before and after an append is pruning once at the end, messages and dropped keys |
| ImageRetention.PruneAsYouGoIsPruneOnce | src/image-retention-policy.ts:11-17 | pruning after every append gives the same transcript and concatenated keys as pruning once, for any labels |
| ImageRetention.ImageRetentionPolicy.FindImages | src/image-retention-policy.ts:29-35 | the nested loops collect exactly those positions |
| ImageRetention.ImageRetentionPolicy.Prune | src/image-retention-policy.ts:25-54 | the rewriting loop computes the specified transcript and keys |
| ImageRetention.ImageRetentionPolicy.constructor | src/image-retention-policy.ts:45 | a dropped image is called by the trimmed text of its message's parts, or just image when there is none |
| ThinkingRetention.ThinkingRetentionPolicy.FindLatestPlannerThinkingIndex | src/thinking-retention-policy.ts:62-70 | the index of the last message with non-blank reasoning, or -1 |
| ThinkingRetention.ThinkingRetentionPolicy.FindLatestPersistedThinkingIndex | src/thinking-retention-policy.ts:53-60 | the index of the last thinking message, or -1 |
| ThinkingRetention.ThinkingRetentionPolicy.PrunePlannerMessages | src/thinking-retention-policy.ts:23-42 | the specified transcript, and reported as the same exactly when it equals the input |
| ThinkingRetention.ThinkingRetentionPolicy.PrunePersistedMessages | src/thinking-retention-policy.ts:11-20 | the specified transcript |
| ThinkingRetention.ThinkingRetentionPolicy.RecordTurnThinking | src/thinking-retention-policy.ts:44-51 | with per-step thinking off only the recorded turn is left, otherwise it is added |
| ThinkingRetention.PlannerKeepsLatest | src/thinking-retention-policy.ts:22-42 | exactly one reasoning field is left, the latest non-blank one, and nothing else changes; without one nothing changes |
| ThinkingRetention.AtMostOneIff | src/thinking-retention-policy.ts:27-30 | at most one block is left exactly when some thinking is not blank or there was at most one |
| ThinkingRetention.BlankBlocksStay | src/thinking-retention-policy.ts:27-30 | two empty blocks both stay |
| ThinkingRetention.PlannerPruneTwice | src/thinking-retention-policy.ts:31-36 | pruning is idempotent |
| ThinkingRetention.PlannerPruneThenAppend | src/thinking-retention-policy.ts:23-42 | pruning before an append and again after it is pruning once |
| ThinkingRetention.PlannerAsYouGoIsOnce | src/thinking-retention-policy.ts:23-42 | pruning after every append is pruning once |
| ThinkingRetention.PrunedIsKeepNewest | src/thinking-retention-policy.ts:15-19 | the index filter keeps the newest thinking in place and drops the others |
| ThinkingRetention.PersistedKeepsLatest | src/thinking-retention-policy.ts:11-20 | at most one thinking is left, the latest, and every other message stays in order |
| ThinkingRetention.PersistedPruneThenAppend | src/thinking-retention-policy.ts:11-20 | pruning before an append and again after it is pruning once |
| ThinkingRetention.PersistedAsYouGoIsOnce | src/thinking-retention-policy.ts:11-20 | pruning after every append is pruning once |
| OutputReducers.CompressRepeatedLines | src/command-output/analyzer.ts:14-49 | the counting loop computes the compression by maximal runs |
| OutputReducers.DecodeCompress | src/command-output/analyzer.ts:14-49 | the compressed output decodes to the input |
| OutputReducers.CompressDecode | src/command-output/analyzer.ts:14-49 | every canonical output is the compression of what it decodes to, so the form is unique |
| OutputReducers.CompressCanonical | src/command-output/analyzer.ts:28-46 | no four equal consecutive entries, markers only above three, and each marker takes its whole run |
| OutputReducers.CompressNeverLengthens | src/command-output/analyzer.ts:28-46 | never longer than the input, and the input itself exactly when no line stands four times in a row |
| OutputReducers.RenderedUnambiguousIff | src/command-output/analyzer.ts:28-29 | over a set of lines the rendered text tells inputs apart exactly when no line of the set is the marker of another |
| OutputReducers.MarkerLineConfused | src/command-output/analyzer.ts:28-29 | one line and four lines that render alike |
| ErrorContext.FindErrors | src/command-output/analyzer.ts:53-58 | exactly the matching indexes, ascending |
| ErrorContext.GetErrorContextLines | src/command-output/analyzer.ts:51-78 | the overlapping windows yield exactly the lines within two of a match, in order, each once |
| ErrorContext.NearMeansWithinTwo | src/command-output/analyzer.ts:67-68 | near means at most two lines away, within the output |
| ErrorContext.ContextEmptyIff | src/command-output/analyzer.ts:60-62 | empty exactly when no line matches |
| ErrorContext.NearInContext | src/command-output/analyzer.ts:66-75 | every kept line is within two of a match in the result itself |
| ErrorContext.ContextTwice | src/command-output/analyzer.ts:51-78 | taking the context of a context changes nothing |

## Left out

- Input/output, HTTP, stores, signals, timers and process spawning: they appear as events, scripts or function parameters; store writes are total. A child or test process that cannot be spawned, and a promise that never settles, are not modelled.
- Floating point: durations, weights, rates and budgets are reals, so rounding, NaN and infinities are not captured; the limits of safe integers are not either.
- Validation schemas: a malformed `usage` object is one value, and parsing is not modelled. Folds are taken to pass their own schema, which `ThroughputLaws.EveryFoldWellFormed` justifies over the reals.
- Regular expressions, trimming, slugs and token counting are arbitrary deterministic functions.
- Array identity: that a prune returns the same array instance is modelled as a flag for planner messages and left out elsewhere.
- The job runner beyond its preemption flag, the job store, the scheduler and retries; activity records of refused drains; the resource gates before a job is claimed.
- An interactive request to a disabled assistant: it does nothing, so it is no event.
- The forced second interrupt of the restart supervisor, its messages, and the tree kill after a stop timeout (a child just exits at some time).
- The engine after an interrupted restart that goes on in the background, and the override of the interrupt signal: the source promises no order there. Matrix manifests are taken as read, which includes that some run is selected.
- The launcher's other arguments, which are the same for every launch of one matrix; a model path is what it resolves to.
- Context sizes and token limits of a benchmark target are natural numbers here.
- Concurrency is an integer in the lane pool; the cache and the tests' own processes are the parameter `run`.
- A second `run` of one agent loop goes on from the turns of the first: `AgentLoopModel.AgentLoop.RunLoop` covers it, `AgentLoopModel.EveryRunKeepsItsPromises` is about a fresh loop. Absent adapters are a flag.
- Draft fields outside the integrity rules: their edits are `EditElsewhere`, `EditPreset` and `EditModelPreset`. Autoload indexes are integers. The format of a new preset's id is not validated, as in the source. `applyModelPresetSelection`, which only tests call, is left out.
- Preset catalog lookups other than its acceptance checks, which are local.
- Profiles of `reduceText`: case analysis over the two reducers modelled here, head and tail slices and a regular expression.
