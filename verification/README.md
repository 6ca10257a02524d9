# Verified models of the SRE agent backend

This project models the protocols and algorithms of the agent backend that carry promises over whole
runs, and proves those promises with Dafny. `dafny verify dfyconfig.toml` checks everything.

- **Approval and resume** (`Approval`, `ApprovalRuns`, `ApprovalLaws`, `ToolExecutor`): a run is an
  append-only event log and a status. The handlers that decide, expire, list and resume are methods
  over a repository object; `ApprovalRuns` interleaves them with the runtime in every possible way.
- **The bounded ReAct loop** (`Decision`, `Evidence`, `Recovery`, `Intervention`,
  `InterventionLaws`, `ReactLoop`, `ReactLoopRuns`, `ReactLoopExits`, `ReactLoopLaws`): the loop
  with all its ways to end. The decision provider, the fallback, the tool executor, the token
  counts, the clock and the arrival of interventions are arbitrary functions, so every theorem holds
  for whatever they answer.
- **The incremental event-stream parser** (`Sse`, `SseLaws`): chunk independence and print/parse
  inversion. The format is that of sections 9.2.5 and 9.2.6 of the WHATWG HTML Living Standard; the
  parser departs from it (see below), so the theorems are about this parser, not about conformance.
- **The token bucket** (`RateLimit`), over reals.
- **The checkpoint store** (`Checkpoint`, `CheckpointHistory`, `CheckpointLaws`): three tables, and
  histories of puts, writes and deletions.
- **The indexing queue** (`Dispatcher`, `DispatcherRuns`): task rows in a database and a Redis list
  that announces them, written by statements that interleave.
- **Algorithms**: alert deduplication with an expiring store (`Alerts`), greedy clustering
  (`Clustering`), in-place merging of small chunks (`Splitter`), first-in-first-out pairing of tool
  calls and results (`Trajectory`, `TrajectoryLaws`).

Code that works step by step is a method with a loop or an object with fields, proved equal to a
function; the theorems are lemmas about that function. The modules named Laws, and the last sections
of the other modules, say what these functions answer in terms of their inputs alone. A `Step` of
one of the interleaving models is what the matching handler or statement does, and nothing else.

## What turned out not to hold

For each of these a lemma gives an input that shows it, or the exact condition under which the expected
property holds, or both.

- A tool without a name can be approved and rejected in the same run: the forward scan skips empty
  names. For named tools the first decision is final (`UnnamedDecisionIsNeverFinal`,
  `UnnamedToolIsDecidedTwice`, `FirstDecisionIsFinal`). This is an input of the service; the HTTP route never passes an empty name.
- Cancelling a run stops resumes only until a step lifts the cancellation: an expiry pass that finds
  an overdue request, the rejection of an undecided tool, or the runtime itself. The run stays
  cancelled exactly as long as no step does, and right after a step a resume starts exactly if it did
  (`CancelledRunIsNotResumed`, `ResumeStartsExactlyWhenLifted`, `HandoffLiftsCancellation`).
- A "recover" decision leads nowhere: the loop never tries the alternative tool the plan asks for, and
  decides the same until it fails or a bound ends the run; no intervention frees it (`RecoverRepeats`).
  The plan "retry the same tool" never arises with an honest counter (`RecoverExactlyWhen`).
- The loop never counts tool calls down: whether a decision sees an exhausted budget is settled by the
  state a run starts from (`SeesStepsLeft`).
- An intervention object queued twice before one read that takes it is applied twice, and only then:
  for one read of either kind (`ReadAppliesOnceExactly`) and for a whole run
  (`InterventionsApplyOnceExactlyWhen`).
- Under LF a carriage return at the end of a printed line is lost, unless the line is the last of its
  message; under CRLF none is. A line feed in an event or an id never survives. Otherwise printing is
  undone by parsing, and `ParseOfPrint` says so with an if-and-only-if (`CarriageReturnIsLost`).
- The window bound of the rate limiter can fail when clock readings reach a bucket out of lock order
  (`WindowBoundNeedsOrderedClock`); `WindowInAnyOrder` is what holds in any order.
- A checkpoint whose put leaves a version unwritten need not be read back
  (`PutReadsBackExactlyWhen`), and writing over a named version changes other checkpoints
  (`PutLeavesOthersExactlyWhen`); both lemmas give the exact condition.
- A task with an empty file path is never processed: workers skip its entries
  (`PathlessTaskIsNeverProcessed`, `PathlessTaskIsStranded`). This too is an input of the service; the
  upload route checks the file name.
- The Redis alert store agrees with the one in memory exactly when entries live at least the
  suppress interval (`StoresAgreeExactlyWhen`).
- With a similarity threshold above 1 no badcase is similar even to itself
  (`MembersMeetExactlyWhen`).
- A limit of zero or less for low-confidence steps ends the run at the first open step, whatever its
  confidence (a consequence of `LowConfidenceFiresInTime`).

## Model

| member | source | states |
|---|---|---|
| RateLimit.RateLimiter.Allow | app/security/rate_limit.py:41-56 | One call: the answer and the new bucket of its key are those of the refilled bucket; all other buckets stay. What the limits of a policy are in numbers, `PolicyWindowBound`, `BurstOfFreshKey` and `SecondCallExactlyWhen` say. |
| RateLimit.TokensStayInRange | app/security/rate_limit.py:41-56 | Over any calls the tokens stay between 0 and the capacity. |
| RateLimit.LevelSplits | app/security/rate_limit.py:50-51 | Refilling lazily at two calls is refilling once at the later one. |
| RateLimit.DeniedCallsAreInvisible | app/security/rate_limit.py:50-56 | Erasing any denied calls from a trace leaves every other answer as it was. |
| RateLimit.AllowedInAnyOrder | app/security/rate_limit.py:41-56 | Whatever the order of clock readings, the calls allowed are at most the capacity plus what the advances of the clock refill. |
| RateLimit.WindowBound | app/security/rate_limit.py:23-25 | Any time window of length T allows at most the capacity plus T times the refill rate, for any limits. |
| RateLimit.BurstIsServed | app/security/rate_limit.py:41-56 | The bound is met: n calls at once on t whole tokens allow exactly min(n, t). |
| RateLimit.AllowedInAnyStretch | app/security/rate_limit.py:41-56 | The same for any stretch of consecutive calls of a trace. |
| RateLimit.WindowInAnyOrder | app/security/rate_limit.py:41-56 | In any order, a time window allows at most the capacity plus what the advances of the clock refill from the first to the last call inside it. |
| RateLimit.WindowBoundNeedsOrderedClock | app/security/rate_limit.py:41-51 | With readings out of order two calls at one instant are allowed on a capacity of one. |
| RateLimit.ServedAfterOneToken | app/security/rate_limit.py:50-56 | A call that comes after one token's worth of refill since the last allowed call is allowed, whatever was denied between. |
| RateLimit.NoStarvation | app/security/rate_limit.py:23-56 | So is a call at least 60 / max(rpm, 1) seconds after the last allowed one. |
| RateLimit.PolicyWindowBound | app/security/rate_limit.py:23-56 | In the numbers of a policy: any time window from lo to hi allows at most max(burst, 1) + (hi - lo) * max(rpm, 1) / 60 calls of a key. |
| RateLimit.BurstOfFreshKey | app/security/rate_limit.py:41-56 | From a key without a bucket, n calls at one instant allow exactly min(n, max(burst, 1)). |
| RateLimit.SecondCallExactlyWhen | app/security/rate_limit.py:23-56 | Of two calls of a fresh key with room for one, the second is allowed exactly when (u - t) * max(rpm, 1) >= 60. |
| RateLimit.KeysAreIndependent | app/security/rate_limit.py:41-49 | In a mixed trace every key is answered as if it were alone. |
| Sse.SplitLines | frontend/lib/sse.ts:47-47 | Splitting yields at least one line, the pieces between line breaks. |
| Sse.ParseBlock | frontend/lib/sse.ts:46-63 | The line loop yields the message of the block, or none without a data line; what that message is, `BlockSays` states by its lines. |
| Sse.LeftmostSeparatorIsStable | frontend/lib/sse.ts:25-29 | The leftmost separator and its length do not change when text is appended. |
| Sse.SplitContinues | frontend/lib/sse.ts:25-32 | Splitting a longer text gives the blocks so far, then those of the buffer with the new text, and the same rest. |
| Sse.CompleteContinues | frontend/lib/sse.ts:20-32 | The messages of the complete blocks continue in the same way. |
| Sse.DrainBlocks | frontend/lib/sse.ts:25-32 | The inner loop yields exactly the messages of the complete blocks and leaves exactly the rest. |
| Sse.Flush | frontend/lib/sse.ts:34-38 | The final flush adds the message of the rest, if it is not blank and has one. |
| Sse.ParseSSE | frontend/lib/sse.ts:7-44 | However the text is cut into chunks, the generator yields what one parse of the whole text yields; aborted, it yields the complete blocks read so far. |
| Sse.AbortYieldsAPrefix | frontend/lib/sse.ts:17-17 | An aborted run yields a prefix of the full run. |
| Sse.BlankRestHasNoMessage | frontend/lib/sse.ts:35-38 | The blank test before the flush never changes what is yielded. |
| Sse.CompleteOfPrint | frontend/lib/sse.ts:22-63 | Whatever is printed, with any carriage returns, is read as complete blocks with nothing left over; each message arrives as sent but, under LF, for a return at the end of a line that is not its last. |
| Sse.ReceivedIsSentExactlyWhen | frontend/lib/sse.ts:46-63 | A message arrives as sent exactly when, under LF, no line of it but the last ends in a carriage return; under CRLF always. |
| Sse.ParsedHaveOneLineFields | frontend/lib/sse.ts:46-63 | No text is parsed to a message with a line feed in its event or id. |
| Sse.ParseOfPrint | frontend/lib/sse.ts:22-63 | For all messages and either line ending, printing (one data line for each line of data) and parsing gives the messages back exactly when no event or id has a line feed and, under LF, no line of a message but its last ends in a carriage return. |
| Sse.CarriageReturnIsLost | frontend/lib/sse.ts:47-47 | A message whose first data line ends in a carriage return comes back without it under LF, and as sent under CRLF. |
| SseLaws.LineSays | frontend/lib/sse.ts:52-60 | Exactly the lines that are the name event, data or id, alone or with a colon after it, say something; the value is what follows the colon less one leading space, if there is one. |
| SseLaws.CommentsAreSkipped | frontend/lib/sse.ts:53-53 | A comment line, whatever it says and wherever it stands, changes nothing. |
| SseLaws.BlockSays | frontend/lib/sse.ts:46-63 | A block has a message exactly when it has a data line; the data is the join of the values of the data lines, event and id are those of the last such line, the event is "message" without one. |
| SseLaws.LinesAre | frontend/lib/sse.ts:47-47 | A text without a line feed is one line; a line ends at the first line feed, and a return right before it belongs to the break. |
| SseLaws.ParseIs | frontend/lib/sse.ts:20-38 | For any text: it parses to the message before its first separator (CR LF CR LF or LF LF), if that block has one, and then to what follows parses to; a text without a separator parses to its own message, and has no complete block. |
| ToolExecutor.Invoke | app/agent_runtime/tool_executor.py:294-322 | The retry loop returns the first attempt that succeeds or the last one allowed, after at most retry_count + 1 attempts. |
| ToolExecutor.InvokeToolWithPolicy | app/agent_runtime/tool_executor.py:294-322 | The loop computes that attempt and the number of attempts. |
| ToolExecutor.ApprovalLiftsOneGate | app/agent_runtime/tool_executor.py:142-233 | execute_approved invokes the tool only under a matching approval, and then behaves like execute without the approval requirement; execute never invokes a tool that needs approval. |
| ToolExecutor.ApprovedResultKeepsCall | app/agent_runtime/tool_executor.py:142-233 | On every exit the result names the tool and carries the arguments given. |
| ToolExecutor.ExecuteTells | app/agent_runtime/tool_executor.py:142-233 | The tool runs exactly when the policy is enabled, the capability held, the arguments valid and no approval asked for; otherwise the status names the first check that failed. A tool that ran was tried until it first returned or retry_count + 1 times, and status and output are those of its last attempt. |
| ToolExecutor.ApprovedTells | app/agent_runtime/tool_executor.py:142-233 | After an approval it runs exactly when the approval names the tool and grants it and the other checks pass, with the same statuses and attempts. |
| Approval.ApprovalDecisionsByTool | app/application/native_agent_application_service.py:783-798 | The forward scan keeps the latest decision of each named tool. |
| Approval.LatestApprovalDecision | app/application/agent_resume_service.py:178-189 | The reverse scan finds the last decision about the tool. |
| Approval.FindOriginalAction | app/application/agent_resume_service.py:165-176 | The reverse scan finds the arguments of the last call of the tool. |
| Approval.ScansAgree | app/application/native_agent_application_service.py:783-798 | On every log the two scans agree about every named tool. |
| Approval.FindTool | app/application/agent_resume_service.py:191-216 | The catalog lookup finds a tool of that name, or there is none. |
| Approval.ExecuteOriginalAction | app/application/agent_resume_service.py:191-216 | The result of the approved action names the tool and carries the arguments, also when the tool is unknown. |
| Approval.ResumeRunsLikeUngatedCall | app/application/agent_resume_service.py:191-216 | A resume runs the tool just as a call with all capabilities would if the policy asked for no approval; an unknown tool is an error. |
| Approval.NoOverdueRowIsPending | app/application/native_agent_application_service.py:661-714 | After an expiry pass the list shows no named request past its deadline as pending. |
| Approval.RowsAreRead | app/application/native_agent_application_service.py:460-520 | Every listed row is that of a request in the log, read against the whole log. |
| Approval.AgentRunRepository.AppendEvent | app/application/agent_resume_service.py:151-163 | Appending changes the log of one run, at its end. |
| Approval.ApprovalService.MarkRunHandoff | app/application/native_agent_application_service.py:716-761 | The run gets two handoff events and the handoff status. |
| Approval.ApprovalService.ExpirePendingApprovals | app/application/native_agent_application_service.py:661-714 | The pass over the log appends what `AfterExpiry` says and leaves other runs; what that is, `ExpiresExactlyWhen`, `PassChangesExactlyWhen` and `PassAppends` state in event fields. |
| Approval.ApprovalService.DecideAgentApproval | app/application/native_agent_application_service.py:522-597 | Deciding expires first, refuses unknown runs, bad verdicts and tools already decided, and otherwise logs the decision with a resume event or a handoff. |
| Approval.ApprovalService.ListForRun | app/application/native_agent_application_service.py:460-520 | Listing expires first and then shows each request with its decision, its execution, and the resume status of the result, else of the latest resume event, else of the decision. |
| Approval.AgentResumeService.BeginResumeTask | app/application/agent_resume_service.py:33-112 | The checks of a resume task, in their order, with the event each logs; when they let the tool start, `ResumeStartsExactlyWhen` states. |
| Approval.AgentResumeService.FinishResumeTask | app/application/agent_resume_service.py:112-149 | The result of the original action is logged. |
| ApprovalRuns.NextIsGood | app/application/native_agent_application_service.py:522-597 | Every step of every handler keeps: decisions about a named tool agree, and every resumed result, also one still to be logged, is backed by a ready resume. |
| ApprovalRuns.ReachableIsGood | app/application/native_agent_application_service.py:661-714 | So this holds in every reachable state. |
| ApprovalRuns.FirstDecisionIsFinal | app/application/native_agent_application_service.py:552-583 | Whatever happens after a decision about a named tool, both scans keep returning it. |
| ApprovalRuns.RefusedToolIsNeverResumed | app/application/agent_resume_service.py:67-74 | A named tool rejected or expired has no resumed result, then or after any further steps. |
| ApprovalRuns.ResumedResultIsBacked | app/application/agent_resume_service.py:76-137 | Every resumed result follows a ready_for_resume event of its tool, before which the tool was approved and called, and carries the arguments of its last call at that point. |
| ApprovalRuns.ListedExecutionIsApproved | app/application/native_agent_application_service.py:460-520 | What the list shows as executed, it shows as approved, with an execution status. |
| ApprovalRuns.CancellationEndsExactlyWhen | app/application/native_agent_application_service.py:552-761 | A step ends the cancellation of a run exactly when its own guards say so: something is overdue in the expiry pass, an undecided tool is rejected, or the runtime sets another status. |
| ApprovalRuns.CancelledRunIsNotResumed | app/application/agent_resume_service.py:58-65 | A run stays cancelled exactly as long as no step lifts the cancellation, and gets no ready_for_resume event till then. |
| ApprovalRuns.OnlyRuntimeCancels | app/application/native_agent_application_service.py:716-761 | A run cancelled at both ends of some steps, none of them the runtime's, was never lifted. |
| ApprovalRuns.ResumeStartsExactlyWhenLifted | app/application/agent_resume_service.py:58-112 | Right after any step, a resume of an approved tool that was called starts in a cancelled run exactly when the step lifted the cancellation. |
| ApprovalRuns.HandoffLiftsCancellation | app/application/native_agent_application_service.py:716-761 | A run of steps in which a cancelled run is resumed after another tool was rejected. |
| ApprovalRuns.UnnamedDecisionIsNeverFinal | app/application/native_agent_application_service.py:783-798 | In any state, whatever the log says, a decision about a tool without a name is recorded again. |
| ApprovalRuns.UnnamedToolIsDecidedTwice | app/application/native_agent_application_service.py:783-798 | A run of steps in which a tool without a name is approved and then rejected. |
| ApprovalLaws.LatestDecisionIsLast | app/application/agent_resume_service.py:178-189 | The scan for a decision returns the verdict at the last position that decides the tool. |
| ApprovalLaws.NoDecisionExactlyWhen | app/application/agent_resume_service.py:178-189 | It returns none exactly when no event of the log decides the tool. |
| ApprovalLaws.LastCallIsLast | app/application/agent_resume_service.py:165-176 | The search for the original action returns the arguments at the last position that calls the tool. |
| ApprovalLaws.NoCallExactlyWhen | app/application/agent_resume_service.py:165-176 | It finds none exactly when no event of the log calls the tool. |
| ApprovalLaws.ExpiresExactlyWhen | app/application/native_agent_application_service.py:661-714 | A pass appends an expired decision about a named tool exactly when no event of the log decides it and some result in it asks for its approval and is past its deadline. |
| ApprovalLaws.OnlyDueToolsExpire | app/application/native_agent_application_service.py:661-761 | Everything a pass appends is one of the three events that expire such a tool. |
| ApprovalLaws.PassChangesExactlyWhen | app/application/native_agent_application_service.py:661-761 | A pass leaves the run as it was exactly when there is no such tool, and hands the run off otherwise. |
| ApprovalLaws.PassAppends | app/application/native_agent_application_service.py:661-761 | It appends an expired decision and two handoff events for each due request, in the order of the log, and nothing else. |
| ApprovalLaws.DecisionIsAnswered | app/application/native_agent_application_service.py:522-597 | What a decision about a named tool answers and logs: invalid, already expired, already decided, approved with its resume event, or rejected with its handoff. |
| ApprovalLaws.ResumeStartsExactlyWhen | app/application/agent_resume_service.py:33-112 | A resume starts the tool exactly when the payload approves a named tool, the run is not cancelled, its last decision about the tool approves it, it was called, and a checkpoint is available. |
| ApprovalLaws.ResumeLogs | app/application/agent_resume_service.py:76-112 | It logs nothing unless all checks up to the approval pass, and then one event: what was missing, or that the resume is ready. |
| ApprovalLaws.ResumeIsAnswered | app/application/agent_resume_service.py:33-112 | Why a resume did not start. |
| ApprovalLaws.StartsWithLastCall | app/application/agent_resume_service.py:76-137 | A started tool gets the arguments of its last call. |
| ApprovalLaws.NoResumeWithoutCheckpoint | app/application/agent_resume_service.py:103-112 | In any state, a resume without a checkpoint puts nothing in flight and makes no run ready. |
| ApprovalLaws.ResumedStatusIs | app/application/agent_resume_service.py:191-216 | The status of a resumed result is that of the first tool of that name, run without the approval gate, or an error if there is none. |
| ApprovalLaws.RequestsAreListed | app/application/native_agent_application_service.py:460-520 | The list has one row for each request, named or not, in the order of the log. |
| ApprovalLaws.RowShows | app/application/native_agent_application_service.py:460-520 | A row shows the verdict of the last decision, the status of the last resumed result, and as resume status that there is one, else the last resume event, else what the decision stands for. |
| Decision.BestEvidence | app/agent_runtime/decision.py:836-840 | The best evidence is one of the best quality, or the empty assessment. |
| Decision.FirstStrong | app/agent_runtime/decision.py:256-317 | Strong evidence is found exactly when there is some. |
| Decision.DeterministicCallsFreshTool | app/agent_runtime/decision.py:256-317 | Exactly when the deterministic provider calls a tool, reports or recovers; the tool is available and has not run, the report rests on strong evidence. |
| Decision.BestEvidenceOrder | app/agent_runtime/decision.py:836-840 | The best evidence is strong if any is, else partial, weak, conflicting, an error, and empty only if nothing else is there. |
| Decision.BestEvidenceIsFirst | app/agent_runtime/decision.py:836-840 | Among assessments of that quality it is the first. |
| Decision.FirstIsFound | app/agent_runtime/decision.py:256-317 | A report rests on the first strong evidence. |
| Decision.FirstNewIsFound | app/agent_runtime/decision.py:256-317 | The tool called is the first available one that has not run. |
| Decision.DeterministicSays | app/agent_runtime/decision.py:256-317 | The evidence, tool, arguments, guidance and confidence of each kind of decision. |
| Evidence.StrongExactlyWhen | app/agent_runtime/evidence.py:20-66 | Exactly when a result is strong evidence, empty evidence or an error. |
| Evidence.ConfidenceIs | app/agent_runtime/evidence.py:20-66 | Exactly when a result is partial or weak, and the confidence of each quality. |
| Recovery.ProviderIsAskedOnlyWhenStrong | app/agent_runtime/loop.py:445-489 | With a recovery manager the provider is asked exactly when there is no evidence yet or the latest is strong. |
| Recovery.RecoverExactlyWhen | app/agent_runtime/recovery.py:66-103 | Exactly when recovery decides to recover, to report or to hand over, for an honest counter of empty results. |
| Recovery.RecoveryActsExactlyWhen | app/agent_runtime/loop.py:445-541 | The same for any counter: exactly when recovery acts at all, recovers, reports or hands over. |
| Recovery.RecoverySays | app/agent_runtime/loop.py:503-541 | What such a decision carries: the latest evidence, the reason of its quality, what is to follow, and its confidence. |
| Intervention.InterventionBridge.Add | app/agent_runtime/intervention.py:65-68 | An intervention goes to the end of the queue of its run. |
| Intervention.InterventionBridge.PendingFor | app/agent_runtime/intervention.py:70-73 | A read returns the unmarked entries in queue order. |
| Intervention.InterventionBridge.MarkApplied | app/agent_runtime/intervention.py:75-78 | Marking marks one object. |
| Intervention.InterventionBridge.Clear | app/agent_runtime/intervention.py:80-83 | Clearing removes the queue of one run. |
| Intervention.ApplyPendingInterventions | app/agent_runtime/loop.py:338-354 | The loop before a decision applies and marks the entries of the snapshot one by one, or fails on an invalid observation. |
| Intervention.ApplyReplaceIntervention | app/agent_runtime/loop.py:356-370 | The loop after a decision applies and marks the replacements. |
| Intervention.BeforeComesTo | app/agent_runtime/intervention.py:88-140 | Applying a snapshot appends the injected observations in order, applies the goal changes in order and marks both kinds. |
| Intervention.ReplaceComesTo | app/agent_runtime/intervention.py:105-120 | A replacement changes tool, arguments and summary only, and marks the replacements. |
| Intervention.ReadBefore | app/agent_runtime/loop.py:338-354 | With distinct objects a read before a decision applies and marks exactly the injections and goal changes not read before. |
| Intervention.ReadAfter | app/agent_runtime/loop.py:356-370 | A read after a decision marks exactly the replacements not read before. |
| Intervention.MarksOnceExactly | app/agent_runtime/intervention.py:70-78 | Marking what a read finds of one kind marks no object twice exactly when none was and no unmarked object of that kind stands twice in the queue. |
| Intervention.ReadAppliesOnceExactly | app/agent_runtime/loop.py:338-370 | One read, before or after a decision, applies every object at most once exactly when no unmarked object of its kinds stands twice in the queue. |
| InterventionLaws.PendingOne | app/agent_runtime/intervention.py:70-73 | A read finds one more entry exactly when its object is not marked. |
| InterventionLaws.InjectedOne | app/agent_runtime/intervention.py:88-103 | One more entry is one more observation exactly when it injects one. |
| InterventionLaws.IdsOne | app/agent_runtime/loop.py:338-370 | One more entry is one more mark of the read after the decision if it replaces a call, and of the read before it otherwise. |
| InterventionLaws.AppliesExactlyWhen | app/agent_runtime/intervention.py:88-103 | Applying a snapshot succeeds exactly when every injected observation has a source, a summary and a confidence between 0 and 1. |
| InterventionLaws.LastGoalChangeWins | app/agent_runtime/intervention.py:122-140 | Each field of the goal is what the last change that names it says, or as it was; the workspace never changes. |
| InterventionLaws.LastReplacementWins | app/agent_runtime/intervention.py:105-120 | Tool, arguments and summary are what the last replacement that names them says, or as they were. |
| ReactLoop.LoopBudget.Normalize | app/agent_runtime/loop.py:40-45 | A normalized budget has at least one step, some time and no negative token bound. |
| ReactLoop.DecideWithFallback | app/agent_runtime/loop.py:408-457 | Recovery decides first, then the provider, then the fallback if the provider raises. |
| ReactLoop.RunStep | app/agent_runtime/loop.py:168-297 | One pass of the loop body, phase by phase; what a pass decides and runs, `RunTells` states in terms of the oracles. |
| ReactLoop.Account | app/agent_runtime/loop.py:226-297 | The accounting phase: pause for approval, token bound, record, terminal action, low confidence. |
| ReactLoop.Run | app/agent_runtime/loop.py:158-305 | The whole loop: passes until one ends the run or the steps run out. |
| ReactLoopRuns.TakeApart | app/agent_runtime/loop.py:177-248 | Every pass that does not fail runs a tool exactly when its decision calls one, names it and there is an executor, and the result is what the executor returned to that decision; it gathers evidence only then, runs a tool after recovery's consent only, reads the queue twice, and leaves the books to the accounting. |
| ReactLoopRuns.TurnKeeps | app/agent_runtime/loop.py:168-297 | Every pass keeps the accounts, the evidence, the low-confidence counter and the intervention marks right. |
| ReactLoopRuns.EndsWith | app/agent_runtime/loop.py:168-305 | Whatever every pass keeps holds where the run ends. |
| ReactLoopExits.RunEnds | app/agent_runtime/loop.py:158-305 | A run ends out of steps, out of time, by an exception, or by the accounting of one more pass, at a step it got to. |
| ReactLoopExits.TopIsKept | app/agent_runtime/loop.py:168-297 | At the top of every step that a run gets to, all that the loop keeps holds. |
| ReactLoopExits.DecidedStepsAreReached | app/agent_runtime/loop.py:168-297 | A run gets to every step it decided, within the step bound, and decided it on some state. |
| ReactLoopExits.StepsAndDecisionsAddUp | app/agent_runtime/loop.py:158-305 | On every exit: at most max_steps steps, numbered 0, 1, ..., each begun before the deadline; the final decisions are the initial ones and the steps' decisions, less the last on a pause for approval. |
| ReactLoopExits.TokensAndStatusAddUp | app/agent_runtime/loop.py:243-273 | On every exit: recorded tokens sum to at most max_tokens and to the reported total; on max_tokens_reached the total is that sum and the tokens of the one unrecorded decision; the final status follows from the initial one and the reason. |
| ReactLoopExits.EvidenceAddsUp | app/agent_runtime/loop.py:625-651 | On every exit: new evidence matches the items one for one, executed tools are the initial ones and the called ones, and an honest count of trailing empty results stays honest. |
| ReactLoopExits.RecoveryKeepsEvidenceStrong | app/agent_runtime/loop.py:445-541 | With a recovery manager all new evidence is strong but perhaps the last, and none is gathered after an initial assessment that is not; with the deterministic provider at most one tool runs, from no evidence. |
| ReactLoopExits.ExecutedToolsKeepOrder | app/agent_runtime/loop.py:625-651 | Calls add each new tool once, in the order of first calls, and nothing else. |
| ReactLoopExits.LowConfidenceFiresInTime | app/agent_runtime/loop.py:285-297 | The run ends for low confidence exactly when the steps end with the limit of low ones, and at the first chance. |
| ReactLoopExits.TrailingLowMeans | app/agent_runtime/loop.py:285-290 | A count of at least K means that the last K steps are all below the threshold. |
| ReactLoopExits.InterventionsApplyOnceInOrder | app/agent_runtime/loop.py:338-370 | If no object is queued twice before the last read none is applied twice, and the final observations and goal carry everything queued before the last decision's read, in queue order. |
| ReactLoopExits.InterventionsApplyOnceExactlyWhen | app/agent_runtime/loop.py:338-370 | Whatever is queued, a run applies exactly what its reads find, in order, and no object twice exactly when none of the reads it made finds an unmarked object of its kind twice. |
| ReactLoopExits.DecidesOnAllShown | app/agent_runtime/loop.py:177-184 | At every step that a run gets to and decides, the decision is taken on exactly what was injected and changed before its read. |
| ReactLoopExits.SeesStepsLeft | app/agent_runtime/loop.py:467-481 | At every such step the decision sees as many steps left as the run can still take, the whole time of the run, and an exhausted budget exactly if the run started without tool calls left. |
| ReactLoopExits.RecoverRepeats | app/agent_runtime/loop.py:445-541 | Whatever interventions arrive, a "recover" decision repeats, with a replaced call at most, no tool run and nothing gathered, until the run fails or a bound ends it; if no replacement is still to be applied or arrives, it repeats identically. |
| ReactLoopLaws.SetupIs | app/agent_runtime/loop.py:40-45 | The bounds of a run are those given, or those of its state, raised to one step, a millisecond and no negative tokens; it starts with the memory found for its workspace, if any. |
| ReactLoopLaws.DecisionIsChosen | app/agent_runtime/loop.py:408-457 | Recovery decides if it has something to say, else the provider, else the fallback if the provider raises; nobody does exactly when all of them fail. |
| ReactLoopLaws.RunTells | app/agent_runtime/loop.py:177-242 | On every exit: each pass decided what was so chosen, with the replacements found after it; it carries a tool result exactly when that decision calls a named tool and there is an executor, and the result is its answer. Items, new evidence and called tools of the run are exactly those of these passes, in order; the pass that broke the token bound is one of them. |
| ReactLoopLaws.RunEndsAsSaid | app/agent_runtime/loop.py:226-297 | No step but the last asks for approval, reports, hands off or waits for approval; the last one does exactly when that is why the run ended. Steps cost max(tokens, 0), a pause for approval nothing. |
| ReactLoopLaws.FailsExactlyWhen | app/agent_runtime/loop.py:158-305 | A run fails exactly when it gets to a step within its bounds at which an injected observation does not validate, nobody decides, or the tool raises. |
| Checkpoint.DatabaseCheckpointSaver.Put | app/infrastructure/checkpoint_store.py:190-267 | A put writes one blob for each new version and the row, and nothing else. |
| Checkpoint.DatabaseCheckpointSaver.PutWrites | app/infrastructure/checkpoint_store.py:269-327 | The loop over the writes, with the existence test for numbers that are not negative. |
| Checkpoint.DatabaseCheckpointSaver.DeleteThread | app/infrastructure/checkpoint_store.py:329-343 | All rows of the thread go from the three tables. |
| Checkpoint.DatabaseCheckpointSaver.DeleteNamespace | app/infrastructure/checkpoint_store.py:345-368 | All rows of the namespace go from the three tables. |
| Checkpoint.DatabaseCheckpointSaver.GetTuple | app/infrastructure/checkpoint_store.py:28-127 | With an id, that checkpoint; without one, the one with the greatest id; none only if there is none. |
| Checkpoint.DatabaseCheckpointSaver.ReadBlobs | app/infrastructure/checkpoint_store.py:416-460 | The values of the named versions that have a blob which is not empty. |
| CheckpointHistory.PutReadsBackExactlyWhen | app/infrastructure/checkpoint_store.py:190-267 | Exactly when a read after a put gives the checkpoint back: all values versioned, and each version written now or already showing what it should. |
| CheckpointHistory.PutLeavesOthersExactlyWhen | app/infrastructure/checkpoint_store.py:210-236 | Exactly when a put leaves reads of all other checkpoints alone: each written pair shows what it showed or is not named elsewhere. |
| CheckpointHistory.ReadsGiveBackTheLastPut | app/infrastructure/checkpoint_store.py:28-127 | Over any careful history a read of any id gives exactly what its last put was given, or nothing if it was deleted. |
| CheckpointHistory.FreshHistoryIsCareful | app/infrastructure/checkpoint_store.py:210-236 | Histories whose puts write fresh pairs or the same again are careful. |
| CheckpointHistory.DropNamespaceLeavesOthers | app/infrastructure/checkpoint_store.py:345-368 | Deleting a namespace makes its reads find nothing and changes no other read. |
| CheckpointHistory.DropThreadLeavesOthers | app/infrastructure/checkpoint_store.py:329-343 | The same for a thread and all its namespaces. |
| CheckpointHistory.StayingIs | app/infrastructure/checkpoint_store.py:282-308 | Of the writes of a call with one number, the first stays if the number is not negative, the last if it is. |
| CheckpointHistory.WritesAre | app/infrastructure/checkpoint_store.py:269-327 | What every write row is after a call: what was there first wins for numbers that are not negative, the last write of the call for special channels; other rows stay. |
| CheckpointHistory.ReplayChangesNothing | app/infrastructure/checkpoint_store.py:269-327 | Repeating a put_writes call changes nothing. |
| CheckpointLaws.PendingIs | app/infrastructure/checkpoint_store.py:28-127 | The pending writes of a read are exactly the write rows of its own checkpoint, by task and number. |
| CheckpointLaws.PendingAfterWrites | app/infrastructure/checkpoint_store.py:269-327 | After put_writes a read shows, under each number of that task, the first write of the call with that number unless it was taken before, or the last one under a negative number; all else stays. |
| CheckpointLaws.PutLeavesPending | app/infrastructure/checkpoint_store.py:190-267 | A put leaves all pending writes, also those of its own checkpoint. |
| CheckpointLaws.DeletionLeavesNothing | app/infrastructure/checkpoint_store.py:329-368 | A deletion leaves no value, pending write or row of its thread or namespace behind, and takes nothing else. |
| Dispatcher.IndexingTasks.FindActiveTaskByFilePath | app/platform/persistence/repositories/indexing.py:80-91 | The newest queued or processing task with the path, or there is none: all of its tasks completed or failed for good. |
| Dispatcher.IndexingTasks.SubmitTask | app/application/indexing/service.py:57-72 | The newest active task is reused; otherwise one queued row with at least one retry is added. |
| Dispatcher.IndexingTasks.EnqueueIndexingTask | app/infrastructure/tasks/dispatcher.py:72-80 | The entry goes to the end of the list. |
| Dispatcher.IndexingTasks.ClaimTask | app/platform/persistence/repositories/indexing.py:141-161 | A queued row becomes processing with one more attempt; any other claim fails and changes nothing. |
| Dispatcher.IndexingTasks.ProcessTask | app/application/indexing/service.py:74-100 | The row is completed, queued again or failed for good, and the result says which. |
| Dispatcher.IndexingTasks.ConsumeOne | app/infrastructure/tasks/dispatcher.py:106-133 | A pass of the worker loop: an entry is processed exactly when it has a path and its task is queued. |
| Dispatcher.IndexingTasks.RequeueStaleProcessingTasks | app/platform/persistence/repositories/indexing.py:244-265 | Exactly the stale processing rows are queued again or failed. |
| Dispatcher.IndexingTasks.ListQueued | app/platform/persistence/repositories/indexing.py:173-190 | One payload for each queued row, oldest first. |
| Dispatcher.IndexingTasks.RetryIndexTask | app/api/routes/file.py:157-180 | Missing and processing tasks are refused; any other is queued and announced. |
| Dispatcher.IndexingTasks.Start | app/infrastructure/tasks/dispatcher.py:42-59 | Stale rows are requeued and then every queued row is announced. |
| Dispatcher.ClaimTells | app/platform/persistence/repositories/indexing.py:141-161 | A claim takes a task exactly when it is queued and counts the attempt; a new task has none and may be tried at least once. |
| Dispatcher.RequeuedTells | app/platform/persistence/repositories/indexing.py:244-265 | A stale processing row fails for good exactly when its attempts are used up, and is queued again otherwise; every other row stays. |
| Dispatcher.PassTells | app/infrastructure/tasks/dispatcher.py:106-133 | A worker pass counts the attempt, completes an indexed file, and queues one that is not again, at the end, exactly while attempts remain. |
| Dispatcher.OtherPassTells | app/infrastructure/tasks/dispatcher.py:106-133 | An entry without a path, or of a task that is not queued, is dropped and changes no task. |
| Dispatcher.TriedExactly | app/application/indexing/service.py:74-100 | A task whose file is never indexed is processed exactly max(max_retries, 1) times: queued and announced until then, then failed for good. |
| DispatcherRuns.StepStrandsNone | app/infrastructure/tasks/dispatcher.py:106-142 | Every step of every actor keeps: each queued task with a path has an entry or somebody who will push or claim it. |
| DispatcherRuns.NoTaskIsStranded | app/infrastructure/tasks/dispatcher.py:72-142 | So this holds in every interleaving from empty stores. |
| DispatcherRuns.RestartRecovers | app/infrastructure/tasks/dispatcher.py:42-59 | After everybody crashed, a starting dispatcher restores it from any rows and any list, and it stays. |
| DispatcherRuns.AtRestAllAreInQueue | app/infrastructure/tasks/dispatcher.py:106-142 | When nobody is between steps, every queued task with a path has an entry. |
| DispatcherRuns.ProcessingIsPaidFor | app/platform/persistence/repositories/indexing.py:141-161 | Duplicate entries cause no extra processing: calls number at most the times the task became queued, attempts count exactly the calls, and exceed the limit by manual retries only. |
| DispatcherRuns.PathlessTaskIsNeverProcessed | app/infrastructure/tasks/dispatcher.py:117-121 | A task with an empty path stays queued and unprocessed in every interleaving. |
| DispatcherRuns.PathlessTaskIsStranded | app/infrastructure/tasks/dispatcher.py:117-121 | A run that leaves such a task without an entry and without anybody to look after it. |
| DispatcherRuns.ConsumeOneIsARun | app/infrastructure/tasks/dispatcher.py:106-133 | What a pass of the worker loop does is a run of one worker. |
| Alerts.ProactiveMonitor.FoundExactlyWhen | app/agent_runtime/proactive.py:324-363 | A probe finds exactly the metrics at or over their threshold, of all services; a metric that cannot be read counts as zero. |
| Alerts.ProactiveMonitor.FoundInOrder | app/agent_runtime/proactive.py:288-363 | Services are probed in order, each for its processor before its memory. |
| Alerts.ProactiveMonitor.HandleOne | app/agent_runtime/proactive.py:127-136 | One anomaly is suppressed, or an alert is made and its time recorded. |
| Alerts.ProactiveMonitor.Probe | app/agent_runtime/proactive.py:288-322 | A probe finds the anomalies of all services in order and handles each; anomalies number the alerts and the suppressed together. |
| Alerts.HandleInParts | app/agent_runtime/proactive.py:288-322 | Probes one after the other are one longer history of sightings. |
| Alerts.EmittedOrSuppressed | app/agent_runtime/proactive.py:301-308 | Over any history every sighting is emitted or counted as suppressed. |
| Alerts.AlertsAreApart | app/agent_runtime/proactive.py:127-136 | Timestamps of alerts with the same key are at least the interval apart. |
| Alerts.WindowHoldsFew | app/agent_runtime/proactive.py:127-136 | A window of width W holds at most floor(W / interval) + 1 alerts of a key. |
| Alerts.SuppressedExactlyWhen | app/agent_runtime/proactive.py:127-132 | A sighting is suppressed exactly when an alert of its key was recorded less than the interval ago. |
| Alerts.AlertsAreEmitted | app/agent_runtime/proactive.py:365-374 | The alerts are those of the sightings that were not suppressed, in order. |
| Alerts.RedisMirrors | app/agent_runtime/proactive.py:162-189 | With a ttl of at least the interval the expiring store gives the same alerts and count on every history. |
| Alerts.StoresAgreeExactlyWhen | app/agent_runtime/proactive.py:144-189 | The two stores answer alike on every history exactly when ttl >= interval. |
| Alerts.ShortLived | app/agent_runtime/proactive.py:179-189 | A history on which a shorter ttl lets a repeat through. |
| Alerts.HoldsBackExactlyWhen | app/agent_runtime/proactive.py:127-189 | An alert holds back a repeat exactly while the interval since its record lasts and, in the expiring store, its entry since the write; other sightings change no answer. |
| Alerts.KeyNames | app/agent_runtime/proactive.py:30-38 | The key of an alert names its service and metric, and no other pair has it. |
| Alerts.AlertTells | app/agent_runtime/proactive.py:365-374 | Every alert carries key, service, metric and stamp of one sighting, and is critical exactly when the value is at least 1.2 times the threshold. |
| Clustering.JaccardIsASimilarity | app/application/badcase_service.py:14-21 | The similarity lies in [0, 1] and is symmetric. |
| Clustering.JaccardIsOneExactlyWhen | app/application/badcase_service.py:9-21 | It is 1 exactly between texts with the same bigrams. |
| Clustering.BigramsAre | app/application/badcase_service.py:9-11 | The bigrams of a text are its pairs of neighbours; a shorter text is its own. |
| Clustering.JaccardIsTheShare | app/application/badcase_service.py:14-21 | The similarity is the number of common bigrams over the number of all, and 0 if a text is empty. |
| Clustering.StripTakes | app/application/badcase_service.py:76-76 | Stripping takes white space at both ends and nothing else. |
| Clustering.ValidExactlyWhen | app/application/badcase_service.py:76-79 | A badcase counts exactly when it has an identity and its correction is not all white space. |
| Clustering.First | app/application/badcase_service.py:83-93 | The first cluster whose representative meets the threshold, or none does. |
| Clustering.ClusterBadcases | app/application/badcase_service.py:66-111 | The loop over the badcases computes the greedy clustering. |
| Clustering.Assign | app/application/badcase_service.py:82-101 | The inner loop adds to the first similar cluster or founds a new one. |
| Clustering.IsOrderedPartition | app/application/badcase_service.py:66-111 | Cluster j has number j, holds in order the valid badcases that went to it, starts with its representative, and every valid badcase went to a cluster. |
| Clustering.AnalysesTell | app/application/badcase_service.py:103-111 | The analyses are numbered in order, each represented by its first correction and listing the identities of its members, none missing from the size. |
| Clustering.IndicesAre | app/application/badcase_service.py:75-101 | A badcase is among the members of a cluster exactly when it is valid and went there. |
| Clustering.IndicesIncrease | app/application/badcase_service.py:75-101 | Members stand in the order of the list, each once. |
| Clustering.LongerListExtends | app/application/badcase_service.py:66-111 | Clustering a longer list extends the clustering of its prefix. |
| Clustering.RepresentativesAreApart | app/application/badcase_service.py:82-101 | For a symmetric similarity, representatives are pairwise below the threshold. |
| Clustering.JaccardKeepsRepresentativesApart | app/application/badcase_service.py:82-101 | So they are for this one. |
| Clustering.JoinsOrFounds | app/application/badcase_service.py:82-101 | Every valid badcase is in the first cluster similar enough among those before it, or is the representative of its own. |
| Clustering.LandsInFirstSimilar | app/application/badcase_service.py:82-101 | With a threshold of at most 1 it is in the first similar cluster of the final clustering. |
| Clustering.MembersMeetExactlyWhen | app/application/badcase_service.py:82-101 | Members meet the threshold against the representative exactly when it is at most 1. |
| Splitter.MergeSmallChunks | app/infrastructure/knowledge/document_splitter_service.py:135-171 | For distinct objects the outputs are the head objects, grown in place to the merged texts; all other objects keep their text. |
| Splitter.MergeOne | app/infrastructure/knowledge/document_splitter_service.py:152-165 | One pass of the loop. |
| Splitter.JoinIsKept | app/infrastructure/knowledge/document_splitter_service.py:149-171 | The outputs joined by a blank line are the inputs joined by a blank line. |
| Splitter.ChunksAreGroups | app/infrastructure/knowledge/document_splitter_service.py:149-171 | Every output is the join of a run of inputs from its head to the next head. |
| Splitter.ChunkHeadsIncrease | app/infrastructure/knowledge/document_splitter_service.py:149-171 | The heads increase and start with the first document. |
| Splitter.ChunkSizesFit | app/infrastructure/knowledge/document_splitter_service.py:158-165 | An output is no longer than its head or than twice the chunk size plus the least size; at a boundary the next head is not small or the output was full. |
| Splitter.HeadsExactlyWhen | app/infrastructure/knowledge/document_splitter_service.py:152-165 | The next document heads an output if it is the first, not small, or the output before is full; otherwise its text goes to the end of that output after a blank line. |
| Splitter.AbsorbedAreSmall | app/infrastructure/knowledge/document_splitter_service.py:152-165 | In the result a document heads an output exactly then, so only small documents are absorbed. |
| Trajectory.BuildToolTrajectory | app/application/native_agent_application_service.py:939-988 | The three loops over results, calls and what is left. |
| Trajectory.MatchAll | app/application/native_agent_application_service.py:954-973 | The loop over the calls. |
| Trajectory.CollectLeftovers | app/application/native_agent_application_service.py:975-986 | The loops over the results no call took. |
| Trajectory.BinsHoldResults | app/application/native_agent_application_service.py:945-952 | The dictionary holds the results of each tool, in order. |
| Trajectory.PairsFirstInFirstOut | app/application/native_agent_application_service.py:939-988 | The rows of a tool are its calls in order, the k-th with the k-th result or with none, then the results left over in order. |
| Trajectory.CallsKeepOrder | app/application/native_agent_application_service.py:954-986 | The rows of the named calls come first, in call order; the rest has no calls. |
| Trajectory.LengthIsSumOfMaxima | app/application/native_agent_application_service.py:939-988 | The number of rows is the sum over the tools of max(calls, results). |
| TrajectoryLaws.EventsOfTool | app/application/native_agent_application_service.py:949-961 | An event goes by its tool name, or else by its tool; events without either, or without a payload, are skipped. |
| TrajectoryLaws.RowShows | app/application/native_agent_application_service.py:964-986 | The k-th row of a tool shows its k-th call, what the payload of that call says, and its k-th result, each if there is one; a row without a call shows the result alone. |

## Left out

- Floating point: times, tokens and similarities are reals, so rounding is not modelled, and an alert time survives its trip through a string exactly.
- Atomicity of the approval handlers: each synchronous stretch is one step, cut where a resume waits for its tool; two threads inside one handler are not modelled.
- At most one resumed execution for a tool, at most one expired event, and a request before every decision are not promised by the code and not claimed.
- Approval event payloads beyond the fields the handlers read (the resume status of a decision is taken to be the one its verdict is logged with), metrics, audit text and the encoding of events.
- The loop: spans, cost estimates and the details of token usage; an exception of a provider, a tool or an invalid injected observation ends the run without a result, and what the bridge still holds then is not stated.
- The loop leaves remaining_tool_calls as it finds it; the model does the same, so a bound on tool calls is not claimed.
- Interventions: the payload defaults are taken as already applied; a clear during a run is not part of the loop model; two queue entries of one object may carry different contents in the model.
- Evidence: the assessment of several items at once and its conflict rule; the loop assesses one item at a time.
- LangGraph decision graph, the prompt-based provider and the runtime that wraps the loop.
- The event-stream parser starts after text decoding; characters are code units. It departs from the standard on a lone carriage return, on mixed separators and by flushing an unterminated block at the end.
- The rate limiter's lock and eviction; time is the reading each call brings.
- Checkpoint store: serialization, timestamps, the listing with filters, the choice of version strings, and the order of pending writes with the same number; pending writes are a map from task and number to write.
- Checkpoint ids are integers that stand for the order of the database, and a missing id is None.
- Indexing queue: the database-polling worker, the time of the last update (which rows are stale is open), shutdown, failures of Redis, and payloads that are not objects; rows created at one time come in any order; task ids are numbers, so the test for an empty id falls away.
- A crash of one actor between two of its steps is not a step of the model: it can strand a task until the next start, which `RestartRecovers` covers.
- `_started` only guards one process against a second start; the model lets any number of dispatchers start at any time.
- Alerts: should_probe and the degraded provider; both clocks are one time line.
- Clustering: the drafts of questions made from clusters, and values that are not strings.
- Splitter: the two library splitters before the merge. With one object twice in the list the growth shows in both places, so the contract asks for distinct objects, which those splitters deliver.
- Checks of authentication, paths and permissions; all user interface; tool policy lookups.
