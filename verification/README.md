# Clawside, verified

Clawside is a local service that coordinates agents and delivers their messages over Telegram. This project
models its most intricate parts in Dafny and proves what they promise. It has three groups of modules.

**The sender delivery queue.** `JobTable` is the jobs table and its statements; `Timestamps` is the RFC 3339 text
in which the table stores and compares time; `SenderStore` is the store that changes the table; `DeliveryWorker`
is the worker that claims, sends and settles, and `RetryPolicy` its schedule; `WorkerRuns` is the protocol of one
live worker with crashes and restarts; `SubmitRaces` and `SendService` are idempotent submission; `StatusPolling`
is the client that waits for a delivery.

**The trajectory recognisers and their verifiers.** `Json` holds decoded values and `Trajectory` reads one line.
`ExternalRuntime` is the external-runtime extractor as a value, `ExternalRuntimeExtractor` the same as the object
that the program updates in place, `ExternalRuntimeLifecycle` what its scan means and exactly what it accepts,
`ExternalRuntimeMembers` which members of the JSON each milestone needs, and `ExternalRuntimeVerifier` the check
that judges its record. `HandoffResults` holds the readers that the truth-plane extractors share; `Continuity` and
`ContinuityVerifier` are the 18-step recogniser and its judge, and `ContinuityMembers` says which members each step
needs. `Flows` is what the other four have in common, and `ProgressionFlow`, `RepairFlow`,
`MutationFlow` and `DeliveryFlow` are its instances; `TraceResults` lifts their results to the lines of a file.

**Four compact algorithms.** `Registration` matches expected arguments greedily, `A2ATurns` polls agent turns
through a slice it compacts in place, `OperatorLoop` is the Telegram `getUpdates` client, and `Templates` applies
collaboration templates idempotently.

The checks at the bottom of each recogniser, of a submission and of a template are characterised from outside: the
lemmas whose names end in `Exactly` or `Says` state what they accept in terms of JSON members, of the caller's
command, or of the words in a reply, without naming the function that decides it. The main results above them
therefore speak of the input, not of the validators.

What changes state in the program is a method or a class here, proved against a function on values; the results
are lemmas about those functions, over every input, every run or every interleaving. Inductions are written out:
`dfyconfig.toml` turns automatic induction off.

Four results are about where the code does less than one might expect, each with its exact condition:

* Stored timestamps trim their fractions, so text order is not time order: a whole second is larger text than any
  later instant of that second. All timing results go through `Timestamps.TextLeqBound`, which is off by less
  than one second.
* The two parsers of a tool name disagree in both directions. The metadata parser does not count a result named
  `clawside__x` when x contains a point; no required tool has such a name, so the external-runtime counts still
  cover them. And it counts names that the tool-result parser does not take, when white space stands around the
  server in the name or the stated server is no safe token. `Trajectory.ParsersDisagreeExactly` has the conditions.
* The last complete handoff delivery is not always the one reported: it is exactly when no `a2a_deliver` after its
  create delivers and has, as the first `sender_job_get` after it, one of its own job and, as the first
  `sender_stats` after that, a drained one (`DeliveryFlow.HandoffReportedExactly`).
* A delivery that the polling client reports as failed can still be sent: the failure is final exactly when the last
  reply was a status (`StatusPolling.FailedReportIsFinal`).

## Model

| member | source | states |
|---|---|---|
| `Timestamps.FormatRoundTrip` | store.go:598-608 | an instant of a four-digit year reads back from its stored text as itself |
| `Timestamps.FormatShape` | store.go:598-600 | the stored text is that of RFC 3339, section 5.6, in UTC: the calendar fields with their signs, then up to nine digits of a fraction without a trailing zero |
| `Timestamps.FormatInjective` | store.go:598-600 | two instants are stored as the same text only if they are the same |
| `Timestamps.TextOrderExact` | store.go:598-600 | exactly which stored text is the smaller one: the earlier second, and within a second an order on the trimmed fractions |
| `Timestamps.SecondsCompareAsText` | store.go:598-600 | instants of different seconds compare as text exactly as in time |
| `Timestamps.TextLeqBound` | store.go:598-600 | text(a) <= text(b) implies a < b + 1s |
| `Timestamps.EarlierSecondIsLeq` | store.go:598-600 | a + 1s <= b implies text(a) <= text(b) |
| `Timestamps.WholeSecondReadsLast` | store.go:598-600 | text order is not time order: a whole second is stored as larger text than every later instant of that second |
| `JobTable.ApplyKeeps` | store.go:148-370 | any one statement keeps ids and keys unique, keeps every row's id, key and payload, and never changes a sent or failed row |
| `JobTable.RunKeeps` | store.go:148-370 | the same over any sequence of statements by any number of workers, clients and recoveries: terminal rows are absorbing |
| `JobTable.SettlementNeverGoesAstray` | store.go:567-596 | settling a job that was claimed, after any interference, updates its row or changes nothing and is classified as a state conflict, never as not-found or invalid |
| `JobTable.ConflictExactlyAfterClaim` | store.go:567-596 | over every run: settling an id is a state conflict exactly when some statement claimed it, an invalid transition exactly when it was inserted but never claimed, not found exactly when it was never inserted; an unclaimed settlement changes nothing |
| `JobTable.ClaimTakesLowest` | store.go:225-263 | a claim takes the ready row with the lowest id and no other row changes |
| `JobTable.RecoveryInTime` | store.go:298-326 | over instants: a sending row whose lease ended a second or more ago, or that has none and was touched a second or more before the cutoff, is put back for a retry due now, that the next claim finds ready; one a second or more on the other side is left alone, and so is every other row |
| `SenderStore.Store.Enqueue` | store.go:148-199 | inserts one pending row with the command's key and payload, no attempts and no lease, under a key that is not taken, or changes nothing and reports the conflict |
| `SenderStore.Store.GetByIdempotencyKey` | store.go:210-223 | the row with the key, when there is one |
| `SenderStore.Store.ClaimNextReady` | store.go:225-273 | claims the ready job with the lowest id, or none when none is ready: it is sending, leased until the end that the caller asked for, and keeps its attempts |
| `SenderStore.Store.MarkRetry` | store.go:275-296 | the guarded update of a sending job, or a classified error and no change |
| `SenderStore.Store.MarkSent` | store.go:328-348 | the guarded update of a sending job, or a classified error and no change |
| `SenderStore.Store.MarkFailed` | store.go:350-370 | the guarded update of a sending job, or a classified error and no change |
| `SenderStore.Store.RecoverExpiredSendingJobs` | store.go:298-326 | over instants: each sending job whose lease ended a second or more ago, or without a lease and untouched for the grace period and a second, waits for a retry that is due now; those a second or more on the other side, and all that are not sending, are unchanged |
| `WorkerRuns.StepKeepsInv` | worker.go:64-134 | every step (submit, claim, send, settle, lose, stop, restart) keeps the accounting invariant |
| `WorkerRuns.AttemptAccounting` | worker.go:64-134 | over every run with crashes and restarts: claims = attempts + recoveries + 1 if sending or failed for want of a token; attempts within their limits by status; sends between attempts and max + recoveries |
| `WorkerRuns.AtLeastOnceAtMostOncePerRecovery` | worker.go:64-134 | a send of a sent job was answered as accepted; of a job at most one send was, plus one for each recovery (a send whose response was lost is not counted) |
| `WorkerRuns.OneWorkerNeverConflicts` | worker.go:64-142 | with one live worker every settlement finds its row |
| `WorkerRuns.AnswerSettles` | worker.go:64-142 | after an answer is settled the job is sent iff it was accepted, waits for a retry iff it was rejected for a passing reason with an attempt left, and has failed otherwise; one attempt more, the message of the rejection, the due time of the schedule, and no other row changes |
| `WorkerRuns.MissingTokenFails` | worker.go:78-86 | a job of a bot without a token fails, its attempts unchanged |
| `WorkerRuns.StepSlack` | store.go:225-263 | a claim below row n uses up one unit of the slack below n; nothing but a recovery below n adds to it |
| `WorkerRuns.ClaimsArePaidFor` | store.go:225-263 | over every run, claims below row n are at most the slack below n plus the recoveries below n |
| `WorkerRuns.BoundedBypass` | store.go:225-263 | while a job stays pending every claim takes a lower id, and there are at most as many as the unfinished lower jobs have attempts left, plus recoveries |
| `WorkerRuns.ClaimsTerminate` | store.go:225-263 | without new jobs the claims of any run are bounded by the attempts left plus the recoveries |
| `WorkerRuns.BackoffSpacing` | worker.go:98-114 | the next claim of a retried job comes later than the previous claim + delay - 1s, through the text comparison, clocks not assumed monotonic |
| `WorkerRuns.NextClaimIsDue` | store.go:236 | a waiting job is claimed only at an instant above its due time - 1s |
| `WorkerRuns.NothingDueIsOverlooked` | store.go:236 | when nothing is claimed, no job is pending, and no waiting job has been due for a second or more |
| `WorkerRuns.LeaseOutlivesSend` | worker.go:152-158 | a lease expires, as text, only after send timeout + 1s |
| `WorkerRuns.RestartRecovers` | store.go:298-326 | a job that was lost while it was sent, and whose lease ended a second or more before the restart, waits for a retry that is due, with its attempts, and the next claim takes it or a ready job before it; one whose lease runs for a second more is left alone |
| `WorkerRuns.NoLeaseIsOverdue` | store.go:298-326 | in every run no job is sending after a restart under a lease that ended a second or more before |
| `WorkerRuns.LostClaimIsRecovered` | store.go:225-326 | a job claimed at any instant, first attempt or not, and lost with its worker is put back by a restart a second or more after the lease, whatever happens in between |
| `RetryPolicy.Schedule` | retry_policy.go:5-27 | the delays by attempt: 10s, 60s, 5m, then 15m, unless Telegram names one |
| `DeliveryWorker.Worker.ProcessNextAt` | worker.go:64-142 | one round with arbitrary interference between claim and settlement reports no error, and without interference is exactly the claim, send and settle steps of the protocol: the lowest ready job ends as sent, waiting or failed as the answer says, or failed with its attempts unchanged for want of a token |
| `SubmitRaces.ValidatesExactly` | send_service.go:43-78 | a command is accepted exactly when it has none of the faults that are checked, and the request then has its own trimmed key, bot, chat, text, reply, notification and limit; otherwise it gets the first of its faults |
| `SubmitRaces.SubmitIsLinearisable` | send_service.go:79-110 | in every interleaving of calls and worker statements there is one order of the calls that explains every answer and the table, in which each call takes effect after it began |
| `SubmitRaces.RealTimeOrder` | send_service.go:79-110 | that order is the order of time: a call that returned before another began comes before it, and its place never changes |
| `SubmitRaces.SubmitIsIdempotent` | send_service.go:79-110 | a key has at most one row; an accepted call got that row with its own payload; a rejected one met another payload |
| `SubmitRaces.SameKeySameJob` | send_service.go:79-110 | two accepted calls with the same key got the same job |
| `SubmitRaces.ConflictAddsNoRow` | send_service.go:79-110 | the table grows only at the step where an insert takes effect, by the row that is answered |
| `SendService.Submit` | send_service.go:43-110 | in terms of the command: a faulty one gets its first fault and changes nothing; one with a known key gets that job, or a conflict for another payload, and changes nothing; any other adds one row with its key and payload |
| `SendService.AcceptedKeyHasOneRow` | send_service.go:79-110 | after an accepted command with a key exactly one row has that key, the one returned, with the payload of the command |
| `SendService.ResubmissionReturnsTheJob` | send_service.go:79-110 | submitting the same command again, whatever statements run in between, returns the same job and adds nothing |
| `StatusPolling.StatusesExactly` | internal/deliveryrules/rules.go:22-34 | the five words that are a state, in any case and between white space, and what each is taken for; nothing else is one |
| `StatusPolling.EveryStatusMaps` | internal/deliveryrules/rules.go:22-34 | every job status maps to a delivery status; sent and failed map to themselves and the rest to retrying |
| `StatusPolling.SettledReportIsFinal` | internal/a2adelivery/poll.go:25-95 | when the replies are snapshots of the table at later and later states, a delivery that PollJob reports as sent, or as failed by a status, is so in every later table, with the attempt count reported |
| `StatusPolling.FailedReportIsFinal` | internal/a2adelivery/poll.go:44-95 | exactly when a reported failure is final: the last reply was a status; after any other reply some table that it may come from lets the delivery go on |
| `StatusPolling.FailedReportCanBeWrong` | internal/a2adelivery/poll.go:44-61 | a delivery that is reported as failed after another error and sent later |
| `StatusPolling.ReportIsUnique` | internal/a2adelivery/poll.go:25-95 | the rounds determine the number of requests and the outcome |
| `StatusPolling.RequestBound` | internal/a2adelivery/poll.go:25-95 | on any clock that does not run backwards, at most timeout / interval + 2 requests and one more for each that starts and ends at the deadline itself |
| `StatusPolling.InstantRequestsNeverStop` | internal/a2adelivery/poll.go:105-123 | requests that start and end at the deadline can be of any number, so the second term is needed |
| `StatusPolling.PollJob` | internal/a2adelivery/poll.go:25-95 | the loop makes the specified requests, sets no timer past the deadline, and every timer is the shorter of the caller's interval and what is left of the caller's timeout; its outcome is settled by the last reply, by the cancelled wait before it, or is still open; with requests that take time at most timeout / interval + 2 of them |
| `StatusPolling.AnswerSays` | internal/a2adelivery/poll.go:37-103 | what is reported of each kind of reply, in words, before and after the deadline |
| `Trajectory.ParsersDisagreeExactly` | internal/openclawtrajectory/result.go:106-159 | exactly which messages one parser takes for Clawside's and the other does not, in both directions |
| `Trajectory.TakesExactly` | internal/openclawtrajectory/result.go:106-134 | exactly which messages the tool-result parser takes for a tool of Clawside's, and for which |
| `Trajectory.ResultExactly` | internal/openclawtrajectory/result.go:77-104 | exactly when a line gives a result, and which; when it is an error, and which; otherwise it gives none |
| `Trajectory.MetadataNamesTool` | internal/openclawtrajectory/result.go:136-159 | the metadata parser reads the tool from each of the three forms of a name and from a stated server |
| `Trajectory.MetadataExactly` | internal/openclawtrajectory/result.go:52-75 | exactly when a line gives metadata, and its kind, server and tool |
| `Trajectory.ClawsideResultsAreCounted` | internal/openclawtrajectory/result.go:106-159 | a result that the tool-result parser takes is counted as Clawside's by the metadata parser, except exactly the names clawside__x with a point in them |
| `Trajectory.MisreadHappens` | internal/openclawtrajectory/result.go:106-159 | clawside__a.b is a result of Clawside's that is not counted as one |
| `Trajectory.OvercountedHappens` | internal/openclawtrajectory/result.go:106-159 | a name with white space before the point is counted as Clawside's and is no result of its |
| `ExternalRuntime.SuitableExactlyWhenAccepted` | cmd/openclaw-external-runtime-evidence-extract/main.go:521-640 | the suitability report and the extractor agree in every state |
| `ExternalRuntime.InspectMarks` | cmd/openclaw-external-runtime-evidence-extract/main.go:299-458 | an observation marks exactly the milestones not yet marked that its content shows for the workflow and handoff ids known before it |
| `ExternalRuntime.InspectNotes` | cmd/openclaw-external-runtime-evidence-extract/main.go:299-458 | how an observation changes the ids, the mismatch and the last status |
| `ExternalRuntime.InspectKeepsFlags` | cmd/openclaw-external-runtime-evidence-extract/main.go:299-458 | an observation keeps each gate flag equal to its mark being set |
| `ExternalRuntime.FlagsAndCounts` | cmd/openclaw-external-runtime-evidence-extract/main.go:234-289 | after every scan each gate flag stands exactly when its line is marked, and events = Clawside results + other events |
| `ExternalRuntime.RequiredResultIsCounted` | cmd/openclaw-external-runtime-evidence-extract/main.go:250-271 | a result of a required tool is always counted by the separate metadata parser |
| `ExternalRuntimeLifecycle.ScanMeans` | cmd/openclaw-external-runtime-evidence-extract/main.go:234-458 | after every trajectory that parses the state holds, for each milestone, the first line that shows it for the ids known there, and the ids, the last status and the mismatch that the lines say |
| `ExternalRuntimeLifecycle.ScanTallies` | cmd/openclaw-external-runtime-evidence-extract/main.go:234-321 | after every trajectory that parses the counts say which required tools its results name, and whether a forbidden tool or an event of the runtime occurred |
| `ExternalRuntimeLifecycle.AcceptedExactly` | cmd/openclaw-external-runtime-evidence-extract/main.go:234-640 | a trajectory is accepted if and only if its lines parse, use the required tools and no forbidden one, hold an event of the runtime and no mismatched create, end on a completed status, and their first lines for the nine milestones are in order; the record has those lines and ids |
| `ExternalRuntimeMembers.ShowsExactly` | cmd/openclaw-external-runtime-evidence-extract/main.go:323-458 | a tool result shows a milestone exactly when members of its JSON say so, for the ids known before it |
| `ExternalRuntimeMembers.AcceptedSays` | cmd/openclaw-external-runtime-evidence-extract/main.go:234-640 | so the lines of an accepted record are in order and each says, in its members, what its milestone needs |
| `ExternalRuntimeLifecycle.ForbiddenToolRejects` | cmd/openclaw-external-runtime-evidence-extract/main.go:279-321 | a trajectory in which any of the nine forbidden tools is called or counted is not accepted |
| `ExternalRuntimeLifecycle.LatestCreates` | cmd/openclaw-external-runtime-evidence-extract/main.go:323-352 | the upstream id of the record is that of the last create that needs a review, the downstream id that of the last other create that depends on the upstream handoff then known |
| `ExternalRuntimeLifecycle.PlainLifecycleIsAccepted` | cmd/openclaw-external-runtime-evidence-extract/main.go:234-640 | over lines: two creates of a workflow and no other that matters, and every milestone for these ids on its line and not before, are accepted with these lines and ids |
| `ExternalRuntimeLifecycle.DistinctLines` | cmd/openclaw-external-runtime-evidence-extract/main.go:460-481 | two neighbouring milestones are never marked on the same line |
| `ExternalRuntimeLifecycle.ScanLater` | cmd/openclaw-external-runtime-evidence-extract/main.go:234-277 | later lines never move a mark, unsee a forbidden tool, or change the workflow |
| `ExternalRuntimeLifecycle.RejectionIsFinal` | cmd/openclaw-external-runtime-evidence-extract/main.go:588-640 | after a forbidden tool, a foreign workflow or milestones out of order, no continuation is accepted |
| `ExternalRuntimeExtractor.ExtractionState.ObserveHandoffCreate` | cmd/openclaw-external-runtime-evidence-extract/main.go:323-352 | the fields change exactly as the specification says, and the counts not at all |
| `ExternalRuntimeExtractor.ExtractionState.ObserveBlockedWork` | cmd/openclaw-external-runtime-evidence-extract/main.go:354-373 | the nested loops set the dependency gate exactly when some item names both handoffs |
| `ExternalRuntimeExtractor.ExtractionState.ObserveHandoffProgress` | cmd/openclaw-external-runtime-evidence-extract/main.go:375-400 | approval and completions are recorded for the handoff they name |
| `ExternalRuntimeExtractor.ExtractionState.ObserveNextWork` | cmd/openclaw-external-runtime-evidence-extract/main.go:402-415 | the loop sets readiness exactly when some item is the downstream handoff of a completed upstream |
| `ExternalRuntimeExtractor.ExtractionState.ObserveWorkflowStatus` | cmd/openclaw-external-runtime-evidence-extract/main.go:417-445 | the handoff loop and the finish check equal their specification |
| `ExternalRuntimeExtractor.ExtractionState.ObserveEvidenceSummary` | cmd/openclaw-external-runtime-evidence-extract/main.go:447-458 | the loop sets the gate exactly when the summary holds the completed workflow |
| `ExternalRuntimeExtractor.ExtractionState.ObserveLine` | cmd/openclaw-external-runtime-evidence-extract/main.go:246-271 | one turn of the scan loop changes the fields as the specification says, or reports its error |
| `ExternalRuntimeExtractor.Scan` | cmd/openclaw-external-runtime-evidence-extract/main.go:234-277 | the scan loop builds the specified state, or reports the first error |
| `ExternalRuntimeVerifier.CountCoversRequired` | cmd/openclaw-mcp-smoke/openclaw_external_runtime_evidence.go:268-270 | the Clawside result count of an accepted trace covers the seven required tools |
| `ExternalRuntimeVerifier.AcceptsExactly` | cmd/openclaw-mcp-smoke/openclaw_external_runtime_evidence.go:126-340 | the smoke check accepts exactly the safe files without forbidden members whose evidence says, member by member, all that is required |
| `ExternalRuntimeVerifier.ForbiddenMemberRejects` | cmd/openclaw-mcp-smoke/openclaw_external_runtime_evidence.go:342-362 | a file that holds any of the eighteen forbidden members, at any depth, is rejected |
| `ExternalRuntimeVerifier.VerifierAcceptsExtractor` | cmd/openclaw-mcp-smoke/openclaw_external_runtime_evidence.go:126-296 | the verifier accepts the record of an accepted trace exactly when its strings are safe |
| `Continuity.SummarizeContinuityResults` | cmd/openclaw-truth-plane-continuity-extract/main.go:210-375 | the loop over its flags, indices and payload gives the specified verdict; an incomplete flow is reported by its first missing step (what each step needs is in ContinuityMembers) |
| `Continuity.AcceptedIsAccounted` | cmd/openclaw-truth-plane-continuity-extract/main.go:210-375 | an accepted trace has 18 strictly increasing positions from the last create of its kind on, the declared tool at each, valid for that create's ids; the summary is read from these results alone, and nothing later disputes it |
| `Continuity.MissingStepIsNext` | cmd/openclaw-truth-plane-continuity-extract/main.go:341-374 | a trace reported as lacking step k has a valid path of exactly the k steps before it |
| `Continuity.AcceptedExactly` | cmd/openclaw-truth-plane-continuity-extract/main.go:210-375 | a trace is accepted exactly when no result breaks the run off and some path of 18 valid steps, that nothing later disputes, accounts for it; its ids are those of the path |
| `Continuity.CleanFlowIsAccepted` | cmd/openclaw-truth-plane-continuity-extract/main.go:210-375 | in particular 18 valid steps back to back are accepted, whatever flows came before them |
| `ContinuityMembers.StepExactly` | cmd/openclaw-truth-plane-continuity-extract/main.go:377-649 | a result is a valid step exactly when its JSON members say what the step needs: both ids, the accepted transport request, the action and state, the repaired handoff, the final state and status |
| `ContinuityMembers.AcceptedSays` | cmd/openclaw-truth-plane-continuity-extract/main.go:210-375 | an accepted trace holds 18 such results in order, for the ids of its summary; the repair in the summary is that of this handoff, and the status what the last result says |
| `ContinuityMembers.SayingIsEnough` | cmd/openclaw-truth-plane-continuity-extract/main.go:210-375 | and 18 results that say so one after the other are accepted with these ids, whatever flows came before them |
| `ContinuityVerifier.ValidateTools` | cmd/openclaw-mcp-smoke/openclaw_truth_plane_continuity_results.go:134-151 | accepts exactly the declared list, and never gives the answer of a list that lacks nothing |
| `ContinuityVerifier.AcceptsExactly` | cmd/openclaw-mcp-smoke/openclaw_truth_plane_continuity_results.go:60-132 | the smoke check accepts exactly the safe files whose record says, member by member, all that is required |
| `ContinuityVerifier.MissingContinuityTool` | cmd/openclaw-mcp-smoke/openclaw_truth_plane_continuity_results.go:153-171 | on too short a list some tool is always left to name, and the one named is on the list too few times |
| `ContinuityVerifier.VerifierAcceptsExtractor` | cmd/openclaw-mcp-smoke/openclaw_truth_plane_continuity_results.go:60-132 | the verifier accepts the record of an accepted trace exactly when it is safe and its three ids are not blank |
| `Flows.ChoosesLast` | cmd/openclaw-truth-plane-repair-extract/main.go:163-192 | the chosen flow is the last start that succeeds |
| `Flows.ExtensionStability` | cmd/openclaw-truth-plane-repair-extract/main.go:163-192 | for any stable flow: an accepted trace stays accepted however it goes on, the choice never moves back, and changes only if a later start succeeds |
| `Flows.RunsStably` | cmd/openclaw-truth-plane-repair-extract/main.go:194-302 | a loop whose success no result can undo gives the same success on every longer trace |
| `Flows.CountedRunTakesFirsts` | cmd/openclaw-truth-plane-delivery-extract/main.go:211-348 | a loop that counts its steps succeeds only by the first result of each tool, each valid |
| `Flows.FirstsAreACountedRun` | cmd/openclaw-truth-plane-delivery-extract/main.go:211-348 | and it succeeds whenever the first result of each tool is valid |
| `Flows.RunHasPath` | cmd/openclaw-truth-plane-repair-extract/main.go:194-302 | a loop that keeps to a declared order of steps succeeds only on a trace that holds them in that order |
| `ProgressionFlow.AcceptanceIsStable` | cmd/openclaw-truth-plane-progression-extract/main.go:158-187 | an accepted trace stays accepted on every extension, the start never moves back, and the choice changes exactly if a later start succeeds |
| `ProgressionFlow.SummarizeProgressionResults` | cmd/openclaw-truth-plane-progression-extract/main.go:158-187 | the loop over the starts selects the last flow that succeeds |
| `ProgressionFlow.SummarizeProgressionFlow` | cmd/openclaw-truth-plane-progression-extract/main.go:189-262 | the loop over its flags equals the specified flow |
| `ProgressionFlow.FlowSays` | cmd/openclaw-truth-plane-progression-extract/main.go:189-450 | an accepted flow holds, in order, the results whose JSON members say what the summary reports |
| `RepairFlow.AcceptanceIsStable` | cmd/openclaw-truth-plane-repair-extract/main.go:163-192 | an accepted trace stays accepted on every extension, the start never moves back, and the choice changes exactly if a later start succeeds |
| `RepairFlow.SummarizeRepairResults` | cmd/openclaw-truth-plane-repair-extract/main.go:163-192 | the loop over the starts selects the last flow that succeeds |
| `RepairFlow.SummarizeRepairFlow` | cmd/openclaw-truth-plane-repair-extract/main.go:194-302 | the loop over its flags equals the specified flow |
| `RepairFlow.FlowExactly` | cmd/openclaw-truth-plane-repair-extract/main.go:194-302 | a repair succeeds from a create exactly when the first result of each of the other tools, one after the other, is valid |
| `RepairFlow.FlowSays` | cmd/openclaw-truth-plane-repair-extract/main.go:194-545 | an accepted flow holds, in order, the results whose JSON members say what the summary reports |
| `RepairFlow.FlowHasPath` | cmd/openclaw-truth-plane-repair-extract/main.go:194-302 | an accepted flow holds its seven steps in order, from its own create on and before any other, valid for the ids and repairs in the payload |
| `MutationFlow.AcceptanceIsStable` | cmd/openclaw-truth-plane-mutation-extract/main.go:183-212 | an accepted trace stays accepted on every extension, the start never moves back, and the choice changes exactly if a later start succeeds |
| `MutationFlow.SummarizeMutationResults` | cmd/openclaw-truth-plane-mutation-extract/main.go:183-212 | the loop over the starts selects the last flow that succeeds |
| `MutationFlow.SummarizeMutationFlow` | cmd/openclaw-truth-plane-mutation-extract/main.go:214-313 | the loop over its flags equals the specified flow |
| `MutationFlow.FlowSays` | cmd/openclaw-truth-plane-mutation-extract/main.go:214-449 | an accepted flow holds, in order, the results whose JSON members say what the summary reports |
| `MutationFlow.FlowHasPath` | cmd/openclaw-truth-plane-mutation-extract/main.go:214-313 | an accepted flow holds its six steps in order, from its own create on and before any other, valid for the ids, watch and ownership in the payload |
| `DeliveryFlow.AcceptanceIsStable` | cmd/openclaw-truth-plane-delivery-extract/main.go:173-209 | an accepted trace stays accepted on every extension, the start never moves back, and the choice changes exactly if a later start succeeds |
| `DeliveryFlow.SummarizeDeliveryResults` | cmd/openclaw-truth-plane-delivery-extract/main.go:173-209 | the loop over the starts selects the last flow that succeeds |
| `DeliveryFlow.SummarizeDeliveryFlow` | cmd/openclaw-truth-plane-delivery-extract/main.go:211-299 | the loop with its step counter equals the specified flow |
| `DeliveryFlow.SummarizeMainDeliveryFlow` | cmd/openclaw-truth-plane-delivery-extract/main.go:301-348 | the loop with its step counter equals the specified flow |
| `DeliveryFlow.ScanEvents` | cmd/openclaw-truth-plane-delivery-extract/main.go:371-391 | the loop finds the first id that a transport request names and whether one is accepted |
| `DeliveryFlow.HandoffFlowExactly` | cmd/openclaw-truth-plane-delivery-extract/main.go:211-299 | a handoff delivery succeeds from a create exactly when the first result of each of the other six tools, one after the other, is valid |
| `DeliveryFlow.MainFlowExactly` | cmd/openclaw-truth-plane-delivery-extract/main.go:301-348 | a bare delivery succeeds exactly when the a2a_deliver delivers, the first sender_job_get after it is of its job, and the first sender_stats after that is drained |
| `DeliveryFlow.HandoffReportedExactly` | cmd/openclaw-truth-plane-delivery-extract/main.go:173-209 | the last complete handoff delivery is the one reported exactly when no a2a_deliver after its create makes a bare delivery; otherwise a bare one is reported |
| `DeliveryFlow.StatsReplaceTheHandoff` | cmd/openclaw-truth-plane-delivery-extract/main.go:173-209 | an input on which it is not: seven valid steps followed by a drained sender_stats are reported without the handoff |
| `DeliveryFlow.FlowSays` | cmd/openclaw-truth-plane-delivery-extract/main.go:211-536 | an accepted flow holds, in order, the results whose JSON members say what the summary reports |
| `DeliveryFlow.FlowHasPath` | cmd/openclaw-truth-plane-delivery-extract/main.go:211-348 | an accepted flow holds its seven steps, or the three of a bare delivery, in order from its own start on |
| `ProgressionFlow.FlowIsCarried` | cmd/openclaw-truth-plane-progression-extract/main.go:189-262 | an accepted flow holds a dispatch, exactly five progressions in order, and after them a handoff_get and a workflow_status, with no other create or progression among them |
| `ProgressionFlow.ValidateProgressions` | cmd/openclaw-truth-plane-progression-extract/main.go:335-384 | accepts exactly five progressions that are the required ones in order, for the ids of the create |
| `TraceResults.ExtractToolResults` | cmd/openclaw-truth-plane-repair-extract/main.go:118-152 | the loop over the lines keeps the results of the extractor's own tools in order, or reports the first line that does not parse |
| `TraceResults.KeptExactly` | cmd/openclaw-truth-plane-repair-extract/main.go:118-161 | a line gives exactly the result of the tool it names, when the extractor keeps that tool, and at most one |
| `TraceResults.ResultsGrow` | cmd/openclaw-truth-plane-repair-extract/main.go:118-152 | further lines only add results, and fail exactly when one of them does not parse |
| `TraceResults.TrajectoryStability` | cmd/openclaw-truth-plane-repair-extract/main.go:118-192 | an accepted trajectory stays accepted on an extension exactly when every further line parses; the start never moves back, and the choice changes exactly if a later start succeeds |
| `TraceResults.AcceptedTrajectoriesStay` | cmd/openclaw-truth-plane-repair-extract/main.go:118-192 | the same for each of the four extractors with its own tools |
| `Registration.PathsMatchExactly` | cmd/openclaw-mcp-smoke/registration.go:201-232 | two paths match exactly when neither is blank and they are the same text or resolve to the same place |
| `Registration.FitsIsEmbedding` | cmd/openclaw-mcp-smoke/registration.go:142-180 | the recursive and the positional reading of 'in order at disjoint positions' agree |
| `Registration.EarliestEndIsBest` | cmd/openclaw-mcp-smoke/registration.go:142-180 | taking the occurrence that ends first loses nothing |
| `Registration.FindDbArg` | cmd/openclaw-mcp-smoke/registration.go:182-199 | the first slot or pair of slots that gives the database path, and where it ends |
| `Registration.ArgsContainExpected` | cmd/openclaw-mcp-smoke/registration.go:142-180 | true if and only if the non-blank expected items embed in the arguments in order at disjoint positions |
| `A2ATurns.PollSweep` | cmd/openclaw-mcp-smoke/smoke.go:709-748 | reusing the active slice as its own output keeps exactly the still-pending indices in order and updates exactly the polled turns |
| `A2ATurns.PollSays` | cmd/openclaw-mcp-smoke/smoke.go:709-748 | what one poll makes of a turn, field by field, and when it is done, failed or goes on |
| `A2ATurns.StillPendingIsFilter` | cmd/openclaw-mcp-smoke/smoke.go:709-748 | the kept indices are the active ones that are still pending, distinct and in order |
| `A2ATurns.SweepTracks` | cmd/openclaw-mcp-smoke/smoke.go:709-748 | a pass keeps the failure count zero exactly when every turn no longer active is good |
| `A2ATurns.CheckMultiAgentA2A` | cmd/openclaw-mcp-smoke/smoke.go:665-768 | turn r * agents + j is that of agent j in round r + 1, as its own start and its own replies left it, and there are no others; ok if and only if every one is completed with a reply, without a rejected or timed-out attempt, and with its ids |
| `OperatorLoop.RunOperatorLoop` | cmd/clawside-telegram-operator/operator.go:77-105 | on every sequence of fetches, failures and cancellations the loop handles the updates of all fetches before the first cancelled poll or stopped failure, in order, and no others, and asks next for the one after the last |
| `OperatorLoop.HandlesBatches` | cmd/clawside-telegram-operator/operator.go:77-105 | the specified client handles all fetched batches before the end, in order, failed fetches between them or not |
| `OperatorLoop.OffsetNeverDecreases` | cmd/clawside-telegram-operator/operator.go:77-105 | the offset never decreases, whatever the server sends |
| `OperatorLoop.ExactlyOnceInOrder` | cmd/clawside-telegram-operator/operator.go:77-105 | against a server that honours the offset, the updates handled are the next ones of the stream, each once, in id order, across failures (that none stays behind: EveryUpdateIsHandled) |
| `OperatorLoop.FreshClientExactlyOnce` | cmd/clawside-telegram-operator/operator.go:77-105 | the same from a fresh start: what has been handled is a prefix of the stream |
| `OperatorLoop.EveryUpdateIsHandled` | cmd/clawside-telegram-operator/operator.go:77-105 | and all of the stream, once a fetch before the end has brought its last update, however many fetches have failed |
| `OperatorLoop.RepeatedUpdatesAreRepeated` | cmd/clawside-telegram-operator/operator.go:77-105 | against a server that repeats its updates, the loop repeats them |
| `Templates.ChecksExactly` | internal/orchestrator/collaboration_template.go:142-240 | an application passes exactly when it has none of the faults that are checked, with the template that its name selects; otherwise it gets the first of its faults |
| `Templates.ApplySays` | internal/orchestrator/collaboration_template.go:142-226 | in the caller's terms: a faulty application changes nothing and gets its first fault; one under a bound key is answered from the record or with a conflict; any other adds one workflow with the three handoffs of the selected template and binds the key |
| `Templates.BuildFollowsCatalogue` | internal/orchestrator/collaboration_template.go:321-379 | the three builders create the catalogue's handoffs, with its kinds, intents, roles and exactly its declared dependency edges |
| `Templates.ApplyKeeps` | internal/orchestrator/collaboration_template.go:142-226 | one application keeps the handoffs a sequence of blocks that the builders made, with unique ids, dependencies pointing back within their workflow, and every record bound |
| `Templates.RunKeeps` | internal/orchestrator/collaboration_template.go:142-226 | the same over any sequence of calls; rows stay and bound keys keep their record |
| `Templates.ReplayOrConflict` | internal/orchestrator/collaboration_template.go:142-226 | once a key is bound, a replay of its payload returns the stored result and creates nothing, and any other payload conflicts and changes nothing, for ever |
| `Templates.NoDependencyCycle` | internal/orchestrator/collaboration_template.go:321-379 | no chain of dependencies among template handoffs ever closes |
| `Templates.Service.ApplyCollaborationTemplate` | internal/orchestrator/collaboration_template.go:142-226 | the transaction changes the database as ApplySays says, or not at all |

## Left out

- HTTP handlers, Telegram and sender clients, SQL text, flags, usage text and file writing: each SQL statement is
  one atomic step, each reply of a peer an input.
- Clocks, replies and trace lines are inputs. A loop that runs until it is cancelled is modelled on any finite
  sequence of its turns.
- Texts of error messages: an error is a constructor, or just the absence of a result in the progression, repair,
  mutation and delivery flows. The polling client's own messages are modelled, without the job id in
  the one for a job that disappeared.
- Several processes with workers on one database: only the settlement, absorption and idempotency results cover
  them; accounting, bypass and timing assume one live worker.
- Completion of a job whose lease is still running when the worker restarts: recovery runs only at start.
- Database failures: a settlement that could not be written is the step `Lose`; the others are not modelled.
- The in-memory runtime state, job listing, statistics and configuration loading.
- JSON decoding: a line is either malformed or a decoded event. Numbers are integers, and the fallback from a
  lower-case member name to a capitalised one is modelled only where a reader asks for both names.
- The searches for unsafe strings in the two verifiers: a predicate parameter.
- Lower-casing beyond ASCII letters, and reading timestamps with an offset other than Z.
- Sorting of the observed event types and of the forbidden tools: sets, or any listing of the set.
- The choice of the lines that are results of the continuity recogniser's own tools: it runs over results of any
  tool and ignores those it does not know, as the filter would. For the other four extractors `TraceResults` models
  the choice; a later line that does not parse makes them fail, so their `AcceptanceIsStable`, which is over
  results, holds of a file only as `TraceResults.TrajectoryStability` says.
- Deliveries whose response from Telegram was lost: such a send counts as rejected, as the worker takes it.
- Resolution of paths and commands in the registration check, and its collection of candidates.
- SHA-256 of template payloads: compared as the payloads themselves.
- Watches and events that template handoffs give rise to: the protocol and projection code is not part of this
  model; ids are fresh and the transaction is atomic.
- The shape of messages and the parsing of commands in the operator loop; the other smoke checks.
