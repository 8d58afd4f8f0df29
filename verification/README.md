# AgentForge: a verified model of its core

AgentForge is a backend that runs language-model agents: an API appends to an event log and streams
it to clients, workers drive a cyclic agent graph that can be killed, paused and resumed, and a few small
services (approvals, tool calls, refresh tokens, rate limits, documents) must keep their promises under
retries and repetition. This project models that logic in Dafny and proves what it guarantees, over every
input, every run and every interleaving of the steps stated below.

`dafny verify dfyconfig.toml` checks everything.

| file | what it models |
|---|---|
| `EventLog.dfy` | the event table, and any number of appenders that read the maximum, insert under the unique key, publish, or die |
| `EventPages.dfy` | cursor pages over one execution's log |
| `EventStream.dfy` | one stream handler: replay loop, live messages, high-water mark, closing |
| `StreamSystem.dfy` | appenders, a channel that may lose, repeat and reorder, and any number of streams |
| `StreamHistories.dfy` | what holds of a stream along every history: how it ends and whether it has gaps, with the steps that decide |
| `StreamSessions.dfy` | sessions over an ordered, lossless channel, runs that break the promises, and chains of streams that a client reconnects to |
| `SseWire.dfy`, `StreamClient.dfy` | the bytes written, read back by the event-stream parser of the HTML Standard (sections 9.2.5 and 9.2.6), up to the next `Last-Event-ID` |
| `AgentState.dfy`, `AgentGraph.dfy` | agent state, channel reducers against the runner's overlay, nodes and edges under arbitrary answers |
| `AgentRunner.dfy`, `RunnerService.dfy` | any number of runs of an execution at once, with starts, node steps, runner steps and kills in any order; one job as it runs |
| `Checkpoints.dfy` | serialisation rounds, saving, loading, pruning |
| `Lifecycle.dfy` | status, cancel flag, events and messages under any number of workers, cancels, decisions and expiries |
| `Approvals.dfy` | approval rows, decisions, expiry, the gate in front of a tool |
| `ToolExecutor.dfy` | tool-call rows with crashes between any two persisted steps |
| `RefreshTokens.dfy` | rotation with reuse detection over families of tokens |
| `RateLimit.dfy` | the sorted set of the sliding window against the full request history |
| `Chunking.dfy`, `ChunkBounds.dfy`, `ChunkPacking.dfy`, `ChunkService.dfy` | the recursive text chunker: content, shape and length of chunks, which splits a chunk takes, and its loops |
| `Embeddings.dfy` | the embedding cache, batching and ingestion |

Code that works by updating state (handlers, services, loops) is also written as classes and methods; each
method equals a function of the old state, and the theorems are about that function.

## Promises that the code keeps only under a condition

- **Closing on a terminal event.** The live handler's cleanup clears a timer that is declared only after the
  subscribe is awaited. A terminal message handled in between makes cleanup throw; the error is caught and the
  response is not ended, so later events still follow (`FrameAfterTerminal`, a run of the whole system). Over every
  history, each terminal frame is the last and has ended the response at every moment, exactly if no newer terminal
  message is heard before the timer exists (`EndsOnTerminalIff`); and nothing stands behind a terminal frame exactly if
  no newer message is heard although cleanup has run (`EveryStreamIsSound`).
- **Resuming without gaps.** Replay ends before the subscribe, and the channel may lose messages. Over every history a
  session is free of gaps exactly if no message that it hears is further ahead than the next one
  (`SessionGapFreeIff`); one that ends in replay always is (`ReplaySessionIsGapFree`). Over a chain of streams, each
  resumed from the last id received, the whole delivery is a stretch of the log exactly if this holds of each
  (`ChainIsStretchIff`). With an ordered, lossless channel the condition is that no event was stored after the last page
  read and published before the subscribe, or nothing is heard (`OrderedSessionGapFreeIff`); `GapAfterReplay` is a run in
  which one was.
- **The budget of a graph run** holds for all answers exactly from states in which no dispatchable tool is left
  pending (`BudgetIffSettled`). Otherwise a model failure with an empty message, which counts as no error, lets
  the stale tool run once more. Fresh states and all saved ones meet the condition.
- **Terminal statuses are final, with one event and one message.** Along a history each outcome stays exactly if no
  worker overturns a final status; the events and messages are exact at every moment exactly if moreover no final append
  is lost (`HistoryIsExactIff`). From a given final state all of it holds whatever comes exactly if no worker is at work
  (`StableIffNoWorker`, `ExactForeverIffNoWorker`). If a status becomes final only when no worker is left, finality holds,
  and the rest exactly if no final append is lost (`CleanHistoriesAreExact`, `FinalIsFinalIffClean`). Messages, events and
  status agree exactly as long as no lost append sets them apart (`AlwaysTracksIff`). A cancel under a running worker is
  overturned by its completion (`CancelIsOverturned`); a lost COMPLETED event leaves a FAILED execution with the message of
  its answer (`CompletionIsLost`). The documents describe the status as staying RUNNING until the worker reacts; the
  handler writes CANCELLED at once, and the model follows the handler.
- **A decision on an approval.** On the newest row of a tool it takes effect at the gate exactly if it carries no note,
  or an older row is decided the same way: a note replaces the payload the gate searches by. On a pending row that has a
  newer one it changes nothing: the gate gives that answer exactly if it did before (`DecisionTakesEffectIff`). Both
  failures occur for every execution and tool: `NotedDecisionIsLost`, where the next run asks again, and `OlderDecisionIsLost`,
  where a retried job got to the tool a second time before the approver decided, and a decision on the first row leaves
  the gate waiting. A decision is never consumed and is not bound to the tool's input (`DecisionStandsForever`).
- **A successful tool call is reused** for ever exactly if no invocation writes its failure over the row
  (`SuccessLastsIff`). That branch is reached because the append of the result event stands in the same try block as the
  tool: if it fails after the success was stored, the error handler marks the row ERROR or CANCELLED, and the next call
  runs the tool again; if the worker or the storage fails before that write, the success stands (`FailedAppendDecides`,
  from states that `MarkedIsReached` shows to be reached).
- **The length of a chunk** is bounded by the chunk size and one overlap per separator exactly if there is some
  overlap: with overlap 0 the slice from `-0` is the whole chunk (`LengthBoundIff`). The bound is reached
  (`BoundIsReached`).

Further differences between text and code, where the model follows the code: pruning also keeps plan and respond
checkpoints, not only the first, the last and the waiting ones; a resumed run starts the graph at its beginning
with the saved state, not at the saved node; and no checkpoint is saved when a run pauses for approval, although
`src/modules/workflows/nodes/act.node.ts:31` says so.

## Assumptions

HTTP handlers and sweeps are atomic steps, storage is reliable, and workers crash at node boundaries or between
persisted steps; the writes that end a job are one step, in which the append of a final event may fail, as it does when
another append takes its sequence number. A failed append of any other event counts as an error of the node, or as a
crash at the start of the job. Ids and hashes are distinct where the code draws them at random; creation times of rows
are distinct; the clock of the limiter does not run backwards. `Last-Event-ID` is a non-negative
integer. Numbers are unbounded: sequence numbers stay below 2^53 in the program. The language model, tools, embedder,
text extraction and hashing are arbitrary inputs. The tool-input hash is any function, injective or not.

## Model

| member | source | states |
|---|---|---|
| EventLog.InsertTakesNext | src/modules/executions/events.service.ts:34-46 | an insert that the unique key (executionId, sequence) lets through always takes the next free sequence, however old the maximum it read |
| EventLog.StepKeepsInv | src/modules/executions/events.service.ts:34-50 | any read, insert, publish or death of any appender keeps every log dense, ids unique and published events stored, and only adds rows at the end |
| EventLog.LogIsAlwaysDense | prisma/schema.prisma:217 | the same over every interleaving of any number of appenders |
| EventLog.LogFromTheStart | src/modules/executions/events.service.ts:34-50 | from an empty table each execution's sequences are exactly 1..n, and each published event stands at its place in the log |
| EventLog.RaceHasOneWinner | src/modules/executions/events.service.ts:35-46 | of two appenders that read the same maximum exactly the first insert commits |
| EventLog.EventsService.AppendEvent | src/modules/executions/events.service.ts:27-53 | undisturbed, the call stores and publishes one event with the next sequence, or fails and changes nothing |
| EventPages.RemainingIsSuffix | src/modules/executions/events.service.ts:62-72 | what a cursor and an after-sequence select is a suffix of the log |
| EventPages.PageIsSlice | src/common/utils/pagination.ts:32-42 | a page is the next stretch of the log, and a cursor is given exactly when events remain |
| EventStream.SendItemsCuts | src/modules/streaming/streaming.routes.ts:78-88 | sending a stretch of the log sends exactly it, cut after its first terminal event, which ends the stream |
| EventStream.CutIsFirstTerminal | src/modules/streaming/streaming.routes.ts:84-87 | the cut is at the first terminal event and nowhere else |
| EventStream.PageStep | src/modules/streaming/streaming.routes.ts:76-91 | a turn of the replay loop, on the log as it is at that moment, either completes the replay of that log or goes one full page further |
| EventStream.StreamHandler.Replay | src/modules/streaming/streaming.routes.ts:72-96 | the loop ends although the log grows between pages, and what was sent is the log after `Last-Event-ID` as of the last page read, or up to its first terminal event; a page read that fails ends the response behind a gap-free stretch |
| EventStream.StreamHandler.SendPage | src/modules/streaming/streaming.routes.ts:78-88 | the inner loop sends, raises the mark and stops as specified |
| EventStream.StreamHandler.OnMessage | src/modules/streaming/streaming.routes.ts:114-133 | the message handler is the specified transition: a message not newer than the mark changes nothing; every newer one is sent, gap or not, and raises the mark; a terminal one ends the response unless its cleanup throws |
| EventStream.StreamHandler.Cleanup | src/modules/streaming/streaming.routes.ts:105-112 | cleanup throws exactly on its first call before the heartbeat timer exists |
| EventStream.PageKeepsInv | src/modules/streaming/streaming.routes.ts:72-96 | a page read keeps ids increasing, frames genuine and the ending rules |
| EventStream.ReceiveKeepsInv | src/modules/streaming/streaming.routes.ts:114-133 | so does any stored event that arrives, in any order and any number of times |
| EventStream.ReplayIsGapFree | src/modules/streaming/streaming.routes.ts:72-91 | a completed replay has no gap |
| EventStream.ReceiveAllGapFreeIff | src/modules/streaming/streaming.routes.ts:114-133 | for any messages, lost, repeated or reordered: after its replay a stream stays free of gaps exactly if none it hears while it is open is further ahead than the next one |
| EventStream.LiveGapFreeIff | src/modules/streaming/streaming.routes.ts:98-133 | from the attaching of the message handler on, before or after the heartbeat timer: over an ordered, lossless channel a stream stays free of gaps exactly if nothing was stored after the last page and published before the subscribe, or nothing arrives |
| StreamSystem.StepKeepsInv | src/modules/streaming/streaming.routes.ts:67-156 | every step of appenders, channel, streams and clients keeps every stream sound against the growing log |
| StreamHistories.EveryStreamIsSound | src/modules/streaming/streaming.routes.ts:67-133 | under every interleaving, loss, repetition and reordering: ids increase above `Last-Event-ID`, each frame is the stored event with its number, and nothing stands behind a terminal frame exactly if no newer message is heard after cleanup has run |
| StreamHistories.EndsOnTerminalIff | src/modules/streaming/streaming.routes.ts:103-152 | over every history: at every moment a terminal frame is the last and has ended the response, exactly if no newer terminal message is heard before the heartbeat timer exists |
| StreamHistories.EndedIff | src/modules/streaming/streaming.routes.ts:84-87 | over every history: a stream has ended exactly if the client or the subscriber went away, a page brought a terminal event, or a newer terminal message was heard whose cleanup did not throw |
| StreamHistories.SessionGapFreeIff | src/modules/streaming/streaming.routes.ts:28-29 | over every history and any channel: what a stream delivers has no gap exactly if no message that it hears while it is open is further ahead than the next one |
| StreamHistories.ReplaySessionIsGapFree | src/modules/streaming/streaming.routes.ts:72-96 | in every run, a session that ends in replay has no gap |
| StreamSessions.HeardIsSent | src/modules/streaming/streaming.routes.ts:98-156 | whatever else happens in the system, and whenever the heartbeat or the close comes, a stream sends after its replay what it makes of the messages it hears |
| StreamSessions.SendsRecords | src/modules/streaming/streaming.routes.ts:114-133 | over every run and any channel: what a stream sends after its replay is exactly the frames of the messages it hears that are newer than its mark and than every one heard before, whatever is missing between them |
| StreamSessions.SessionSends | src/modules/streaming/streaming.routes.ts:40-133 | over every run: all that a session delivers is the log behind the `Last-Event-ID` it was opened with, as of the last page read, and then exactly these frames |
| StreamSessions.FrameAfterTerminal | src/modules/streaming/streaming.routes.ts:105-152 | for any terminal event, a run of the system in which it and a later event are stored, published and delivered, both frames reach the client, and the stream stays open |
| StreamSessions.OrderedSessionGapFreeIff | src/modules/streaming/streaming.routes.ts:98-133 | over an ordered, lossless channel, in every run: no gap exactly if nothing was stored after the last page read and published before the subscribe, or nothing is heard |
| StreamSessions.GapAfterReplay | src/modules/streaming/streaming.routes.ts:76-146 | for any two first events of an execution, a run over an ordered, lossless channel in which the client receives the second alone |
| StreamSessions.ChainDelivers | src/modules/streaming/streaming.routes.ts:40-44 | in every run, over any chain of streams resumed from the last id received: nothing is delivered twice, every frame is the stored event with its number, and the delivery is a gap-free stretch of the log exactly if every session is free of gaps |
| StreamSessions.ChainIsStretchIff | src/modules/streaming/streaming.routes.ts:114-133 | in every run and over any channel: the delivery of a chain of streams is a gap-free stretch of the log exactly if none of them hears, while it is open, a message further ahead than the next one |
| SseWire.DecimalRoundTrip | src/modules/streaming/streaming.routes.ts:44-56 | an id written in decimal parses back to the same number |
| SseWire.WireRoundTrip | src/modules/streaming/streaming.routes.ts:55-59 | for any mix of whole frames and heartbeats a standard parser dispatches exactly the frames written, and holds the last id |
| SseWire.FeedPing | src/modules/streaming/streaming.routes.ts:150-152 | a heartbeat leaves the parser as it was |
| StreamClient.ClientResumesWhereItStopped | src/modules/streaming/streaming.routes.ts:40-65 | the id the client sends on reconnecting is the last one the session delivered, or where it started |
| StreamClient.ClientReceives | src/modules/streaming/streaming.routes.ts:55-69 | with heartbeats anywhere: the client's parser dispatches the greeting and then each event sent, once and in order, with its number, the name of its type and its payload |
| AgentState.OverlayIsReduceIff | src/modules/agents/agent-runner.service.ts:103 | the runner's overlay agrees with the graph's reducers exactly for updates without nulls in reduced keys |
| AgentState.StartRestores | src/modules/workflows/research-v1.graph.ts:66-89 | feeding a saved state into a new graph restores it exactly |
| AgentGraph.StepBurnsFuel | src/modules/workflows/research-v1.graph.ts:26-40 | every node step, whatever the answers, uses up budget, and act steps their own |
| AgentGraph.EveryRunHalts | src/modules/workflows/research-v1.graph.ts:104-131 | from loopCount L and maxLoops M: at most 5 + 3*max(0, M-L) steps and max(0, M-L) acts, and a run that did not throw ends with a response |
| AgentGraph.UnsettledOverruns | src/modules/workflows/nodes/reason.node.ts:97-139 | from any other state some answers cost one act more |
| AgentGraph.BudgetIffSettled | src/modules/workflows/research-v1.graph.ts:31-36 | the budget of steps and acts, the end and the response hold for all answers exactly from the settled states, and so does the act budget alone |
| AgentGraph.PlanThenRetrieve | src/modules/workflows/research-v1.graph.ts:26-29 | a run looks up documents exactly if its plan asks for it, then memories, and comes to the reason node with these and nothing else changed |
| AgentGraph.OneRound | src/modules/workflows/nodes/observe.node.ts:18-55 | a tool asked for within the limit is called; its result or refusal, the text about it and the messages are added behind the earlier ones, and the model is asked again |
| AgentGraph.LoopCollectsResults | src/modules/workflows/research-v1.graph.ts:120-129 | over any number of permitted tool calls: the results in order, each with its observation |
| AgentGraph.HowItEnds | src/modules/workflows/nodes/respond.node.ts:41-109 | the model's own answer is the response if it has text; otherwise, and when the limit stops a call, the respond node asks once more, with an apology for a failed call; the whole final state |
| AgentGraph.FailureEnds | src/modules/workflows/research-v1.graph.ts:26-36 | a plan or reason call that fails with a message leads to the respond node and keeps the error |
| AgentGraph.BlankFailureGoesOn | src/modules/workflows/nodes/plan.node.ts:65-67 | a plan call that fails without a message counts as no error: the run goes on without a plan |
| AgentRunner.NodeKeepsGood | src/modules/workflows/nodes/observe.node.ts:18-55 | each node keeps observations describing tool results in order, results <= min(loopCount, maxLoops), and returns no null that the overlay would mishandle |
| AgentRunner.ConsumeKeepsInv | src/modules/agents/agent-runner.service.ts:99-107 | a turn of one run's update loop keeps what is saved, and every other run, good and settled, with loopCount not below that of the parent checkpoint |
| AgentRunner.MoveKeepsInv | src/modules/agents/agent-runner.service.ts:62-107 | so does every start, node step, runner step and kill of any run |
| AgentRunner.AgentStatesStayGood | src/modules/workflows/nodes/act.node.ts:82-127 | with any number of runs at once, over every crash, pause and resume, in every checkpoint and in both live copies of each run: each observation describes a tool result of its own, in order; observations <= results <= min(loopCount, maxLoops); identities never change; each checkpoint's parent is an earlier one, with no larger loopCount |
| AgentRunner.SerialChainIsList | src/modules/agents/agent-runner.service.ts:64-107 | if no run starts while another is at work, the parents form the list of checkpoints in creation order, along which loopCount never decreases |
| AgentRunner.CopyFollowsGraph | src/modules/agents/agent-runner.service.ts:91-106 | with any number of runs at once, a run's copy equals its graph's state whenever it has caught up, and it can always catch up |
| AgentRunner.StartsFresh | src/modules/workflows/workflow.types.ts:93-108 | with nothing saved a run starts from the empty state of its context, field for field |
| AgentRunner.ResumesWhereItStopped | src/modules/agents/agent-runner.service.ts:62-91 | if the last state saved is that of some run after an update, then whatever happens without a further save, the next run starts its graph and its copy from that state after one round of serialisation |
| AgentRunner.MoveTouchesOneRun | src/modules/agents/agent-runner.service.ts:87-107 | the moves of one run leave every other run as it is, and only the update loop saves |
| AgentRunner.GraphStepsRunTheGraph | src/modules/agents/agent-runner.service.ts:89-91 | the graph steps of a run are those of its graph, whatever the answers |
| AgentRunner.ResumedRunsHalt | src/modules/agents/agent-runner.service.ts:64-90 | after any history of runs, at once or in turn, a run takes at most 20 steps and at most the loops that are left as acts |
| RunnerService.FoldSnoc | src/modules/agents/agent-runner.service.ts:99-107 | one more update extends the copy by its reduction and the checkpoints by one row with the run's last checkpoint as parent, or by none after the reason node |
| RunnerService.LoopSaves | src/modules/agents/agent-runner.service.ts:99-107 | the loop saves one checkpoint for each update of a node other than the reason node, in order: the node, the state the updates up to it led to, and the one before as its parent |
| RunnerService.NextJobResumes | src/modules/agents/agent-runner.service.ts:62-91 | the next job starts its graph and its copy from the state that the last saved update of this one led to, after one round of serialisation |
| RunnerService.LoopIsRunnerSteps | src/modules/agents/agent-runner.service.ts:99-107 | in any reachable state of the interleaved system, other runs at work or not, the whole loop is a sequence of steps of its run; it saves the same checkpoints, and ends in the graph's state |
| RunnerService.AgentRunnerService.Consume | src/modules/agents/agent-runner.service.ts:91-110 | the update loop with overlay, checkpoints, parents and the noticed cancel |
| RunnerService.AgentRunnerService.Conclude | src/modules/agents/agent-runner.service.ts:100-176 | a cancel, a pause, an error or a completion is written as the specified steps, in the order they come |
| RunnerService.AgentRunnerService.Finish | src/modules/agents/agent-runner.service.ts:112-145 | the final writes, and the response text or its placeholder; a lost COMPLETED event turns them into a failure |
| RunnerService.AgentRunnerService.Run | src/modules/agents/agent-runner.service.ts:23-177 | a whole job: skipped unless CREATED, RUNNING or WAITING_FOR_APPROVAL; cancelled at once; or run from the latest checkpoint or an empty state, with its checkpoints, and its status, events, message and flag as its outcome calls for (`JobEnds`), equal to steps of the execution's life |
| RunnerService.JobLeaves | src/modules/agents/agent-runner.service.ts:38-176 | for every outcome, cancel request and lost append: the steps of a job leave the status, events, message and flag that `JobEnds` lists |
| RunnerService.AgentRunnerService.HandleCancel | src/modules/agents/agent-runner.service.ts:179-187 | a worker's own cancel keeps status, events and messages in agreement exactly if its event is stored or the latest was of its kind, and makes the outcome final for ever exactly if no other worker is at work |
| RunnerService.AgentRunnerService.Cancel | src/modules/executions/executions.routes.ts:78-110 | the cancel handler is the specified step, and nothing on a final status |
| Lifecycle.AlwaysTracksIff | src/modules/agents/agent-runner.service.ts:116-187 | over every history, with any number of workers and appends that may fail: one assistant message per COMPLETED event and a final status the kind of the latest terminal event, at every moment, exactly if no lost append sets them apart |
| Lifecycle.QuietStaysQuiet | src/modules/agents/agent-runner.service.ts:41-45 | without workers at work, no rerun, decision, expiry or cancel changes a final status, its event or its message |
| Lifecycle.WorkerOverturns | src/modules/agents/agent-runner.service.ts:116-187 | a worker still at work can always overturn a final status |
| Lifecycle.StableIffNoWorker | src/modules/executions/executions.routes.ts:78-110 | a final status is final exactly if no worker is at work |
| Lifecycle.CleanHistoriesAreExact | src/modules/agents/agent-runner.service.ts:41-187 | if a status becomes final only without workers, it is final whatever comes, and events and messages are exact at every moment exactly if no final append is lost |
| Lifecycle.HistoryIsExactIff | src/modules/agents/agent-runner.service.ts:41-187 | for every history: each outcome stays exactly if no step overturns a final status; one terminal event iff the status is final and one message iff COMPLETED, at every moment, exactly if moreover no final append is lost |
| Lifecycle.ExactForeverIffNoWorker | src/modules/agents/agent-runner.service.ts:116-187 | from a final status with one event and message, they stay exact whatever comes exactly if no worker is at work |
| Lifecycle.FinalIsFinalIffClean | src/modules/executions/executions.routes.ts:85-99 | along a history every final status is final exactly if no step makes a status final over a worker |
| Lifecycle.CancelIsOverturned | src/modules/executions/executions.routes.ts:91-107 | on any new execution, a history in which a cancel under a running worker ends COMPLETED, with two terminal events |
| Lifecycle.CompletionIsLost | src/modules/agents/agent-runner.service.ts:139-174 | on any new execution, a history in which the lost COMPLETED event leaves FAILED with a message |
| Lifecycle.JobRunsIff | src/modules/agents/agent-runner.service.ts:41-70 | from every state: a job puts a worker to work exactly if the execution is CREATED, RUNNING or WAITING_FOR_APPROVAL and no cancel is requested; with a request it cancels; otherwise nothing changes |
| Lifecycle.PausedIsResumed | src/modules/agents/agent-runner.service.ts:41-60 | after a pause, whatever events the approval brings, the next job puts a worker to work |
| Lifecycle.CrashedIsResumed | src/modules/agents/agent-runner.service.ts:41-60 | so it does after the worker died at any point of a run |
| Lifecycle.CancelStopsUnlessExpired | src/modules/agents/agent-runner.service.ts:95-100 | a cancel request under a running worker stops it at its next poll, unless the flag expired first |
| Checkpoints.RoundKeeps | src/modules/checkpoints/checkpoint.service.ts:20-47 | saving and loading keeps everything but the representation of messages: order, type, text, tool ids and calls stay |
| Checkpoints.RoundsAreStable | src/modules/checkpoints/checkpoint.service.ts:20-47 | any number of rounds stores the same, and loads the same after the first |
| Checkpoints.PruneIsIdempotent | src/modules/checkpoints/checkpoint.service.ts:127-152 | pruning twice is pruning once, and the latest checkpoint stays the latest |
| Checkpoints.PruneLeaves | src/modules/checkpoints/checkpoint.service.ts:127-152 | pruning leaves, in order, exactly the first row, the last, and those of plan, respond and WAITING_ nodes; all if there are at most two |
| Checkpoints.WithoutIsPruned | src/modules/checkpoints/checkpoint.service.ts:133-150 | deleting the ids outside the keep set leaves exactly first, last, plan, respond and WAITING_ rows, in order |
| Checkpoints.OfWithout | src/modules/checkpoints/checkpoint.repository.ts:35-40 | deleting rows by id and selecting an execution's rows commute |
| Checkpoints.CheckpointService.Save | src/modules/checkpoints/checkpoint.service.ts:75-100 | only listed nodes are saved; then loading gives the saved state back after one round, and nothing changes for other executions |
| Checkpoints.LoadedIsNewest | src/modules/checkpoints/checkpoint.repository.ts:16-21 | what is loaded is the state of the execution's row behind which it has no other |
| Checkpoints.SaveThenLoad | src/modules/checkpoints/checkpoint.service.ts:75-121 | loading after a save gives the saved state after one round of serialisation, and other executions load what they loaded before |
| Checkpoints.CheckpointService.LoadLatest | src/modules/checkpoints/checkpoint.service.ts:106-121 | none exactly if the execution has no row, else the state of the row behind which it has no other |
| Checkpoints.CheckpointService.Prune | src/modules/checkpoints/checkpoint.service.ts:127-152 | the keep-set loop leaves exactly the rows of this execution that must stay, all rows of every other, and never changes what is loaded for any |
| Approvals.OneStep | src/modules/approvals/approval.repository.ts:37-71 | no operation removes a row, changes a decided one, or unsettles identity; a new row is pending |
| Approvals.DecisionsAreFinal | src/modules/approvals/approval.service.ts:53-92 | over any history no row leaves APPROVED, REJECTED or EXPIRED |
| Approvals.ApprovedByDecide | src/modules/approvals/approval.service.ts:62-71 | an approved row was approved by a decision on it while it was pending |
| Approvals.GatedRunWasApproved | src/modules/workflows/nodes/act.node.ts:50-127 | a gated tool runs only if the newest row for its execution and name, behind which there is none, was approved by an earlier decision without a note while it was pending for that tool |
| Approvals.RefusalNeverRuns | src/modules/workflows/nodes/act.node.ts:53-107 | the tool runs exactly if the gate sees APPROVED; REJECTED and EXPIRED refuse it and write nothing; without a decision one pending row for the tool is added, or the execution is missing |
| Approvals.GateStays | src/modules/workflows/nodes/act.node.ts:132-152 | what the gate has decided no later operation changes |
| Approvals.DecisionStandsForever | src/modules/workflows/nodes/act.node.ts:132-152 | the same over any run |
| Approvals.DecisionTakesEffectIff | src/modules/approvals/approval.repository.ts:43-50 | for any pending row: a decision on the newest one reaches the gate exactly if it carries no note or an older row answers the same; on an older one, exactly if the gate answered the same before |
| Approvals.OlderIsIgnored | src/modules/approvals/approval.repository.ts:43-50 | deciding a pending row that has a newer one of the same tool never changes what the gate answers |
| Approvals.NotedDecisionIsLost | src/modules/approvals/approval.repository.ts:43-50 | for every execution and tool, a history in which a decision with a note never reaches the gate and the next run asks again |
| Approvals.OlderDecisionIsLost | src/modules/workflows/nodes/act.node.ts:58-79 | for every execution and tool, a history in which the run gets to the tool twice and a decision without a note on the first row never reaches the gate |
| Approvals.ExpiryStrandsNobody | src/modules/approvals/approval.service.ts:81-92 | exactly the existing executions with a pending row past its time are queued, and exactly these rows expire |
| Approvals.ExpiresAfterTwoDays | src/modules/approvals/approval.service.ts:12-36 | from every table: a request not decided is EXPIRED at the gate after a sweep exactly if that comes more than 48 hours after the run paused |
| Approvals.ApprovalService.Decide | src/modules/approvals/approval.service.ts:53-78 | one pending row decided, with the note in place of its payload if there is one, and its execution queued; or nothing changed, and each error exactly under its condition |
| Approvals.ApprovalService.ExpireStale | src/modules/approvals/approval.service.ts:81-92 | all stale rows expired and their executions queued in order |
| Approvals.ApprovalService.QueueEach | src/modules/approvals/approval.service.ts:83-91 | the loop queues each row's execution, passing over missing ones |
| ToolExecutor.StepKeepsInv | src/modules/tools/tool-executor.service.ts:47-172 | every persisted step and every crash keeps one success per execution, tool and hash |
| ToolExecutor.AtMostOneSuccess | src/modules/tools/tool-executor.service.ts:50-172 | so does every history |
| ToolExecutor.StepKeepsSuccessIff | src/modules/tools/tool-executor.service.ts:121-155 | a step keeps a success exactly if it writes no failure over it; then the row is unchanged and the tool not run; otherwise the key has no success left |
| ToolExecutor.SuccessStands | src/modules/tools/tool-executor.service.ts:50-74 | over any continuation that never overwrites it: the row is unchanged, the tool never runs again for its key, and every invocation that can begin returns its id and output |
| ToolExecutor.SuccessLastsIff | src/modules/tools/tool-executor.service.ts:50-172 | over every history, a success lasts, and is what every matching invocation returns, exactly if no invocation writes its failure over the row |
| ToolExecutor.FailedAppendDecides | src/modules/tools/tool-executor.service.ts:121-155 | a stored success is reused if its result event is appended, or the worker dies after the append failed; it is lost if the failure is then written |
| ToolExecutor.MarkedIsReached | src/modules/tools/tool-executor.service.ts:76-121 | a stored success with its append still to come is reached for every key and output |
| ToolExecutor.InvocationLeaves | src/modules/tools/tool-executor.service.ts:76-172 | the persisted steps of an invocation leave one row more, one call more and a reply: SUCCESS with the output, CANCELLED after a timeout, ERROR after any other failure, with a stored output kept in the row |
| ToolExecutor.ToolExecutorService.Invoke | src/modules/tools/tool-executor.service.ts:28-173 | one invocation: reuse without running, or one new row, one call and the reply that its outcome calls for, equal to the persisted steps |
| RefreshTokens.PerformKeeps | src/modules/auth/auth.service.ts:106-227 | every operation keeps hashes unique, one usable token per family, and dead families dead |
| RefreshTokens.OneLiveTokenPerFamily | src/modules/auth/auth.service.ts:129-170 | over any history only the newest token of a family can be usable |
| RefreshTokens.RefreshedAtMostOnce | src/modules/auth/auth.service.ts:116-130 | a token refreshes successfully at most once |
| RefreshTokens.ReuseKillsTheFamily | src/modules/auth/auth.service.ts:116-121 | after a revoked token is presented, no token of its family ever refreshes again |
| RefreshTokens.RefreshTouchesOneFamily | src/db/repositories/refresh-token.repository.ts:44-49 | a refresh or a detection leaves all other families exactly as they are |
| RefreshTokens.RefreshHandsOver | src/modules/auth/auth.service.ts:129-175 | on success the new token is the family's only usable one, for the same user; otherwise no token becomes usable |
| RefreshTokens.RefreshAnswers | src/modules/auth/auth.service.ts:106-175 | for every table and request, the exact condition of each reply and all that it leaves: a token is issued exactly if the one presented is stored, unrevoked and not past its time, its user exists and the new hash is unused |
| RefreshTokens.LoggedOutNeverRefreshes | src/modules/auth/auth.service.ts:180-192 | a token stored when it, or all of its user, was logged out is answered as reuse ever after |
| RefreshTokens.AuthService.IssueTokenPair | src/modules/auth/auth.service.ts:196-227 | a login starts a family of one token, unless its hash is in use |
| RefreshTokens.AuthService.Refresh | src/modules/auth/auth.service.ts:106-176 | the checks and writes in order; each reply exactly under its condition, with what it leaves |
| RefreshTokens.AuthService.Logout | src/modules/auth/auth.service.ts:180-186 | the presented token is revoked and nothing else |
| RefreshTokens.AuthService.LogoutAll | src/modules/auth/auth.service.ts:190-192 | the tokens of the user are revoked and no others |
| RateLimit.TrimmedSet | src/common/middleware/rate-limit.ts:29-32 | trimming the set, expired or not, leaves what filtering leaves of the whole history |
| RateLimit.SetIsRecentHistory | src/common/middleware/rate-limit.ts:28-34 | the set always holds exactly the requests of the last window, rejected ones included |
| RateLimit.NeverMoreThanMax | src/common/middleware/rate-limit.ts:23-41 | for every time t at most max requests are admitted in (t - windowMs, t] |
| RateLimit.AdmittedIff | src/common/middleware/rate-limit.ts:34-41 | a request is admitted exactly if it and the requests less than windowMs before it, rejected ones included, are at most max |
| RateLimit.NextRequest | src/common/middleware/rate-limit.ts:28-34 | one more request on the set of the earlier ones gives the set of them all, one larger than the window before it |
| RateLimit.RateLimiter.Handle | src/common/middleware/rate-limit.ts:23-45 | the pipeline on the stored set decides by the full history; a request that Redis does not answer is let through and not counted |
| Chunking.SplitJoins | src/modules/documents/chunking.service.ts:18-19 | splitting loses nothing but the separators |
| Chunking.PackWeaves | src/modules/documents/chunking.service.ts:24-45 | the packing loop drops nothing but blanks, from any intermediate state |
| Chunking.SplitWeaves | src/modules/documents/chunking.service.ts:13-49 | through every level of recursion the bodies are disjoint stretches of the text, in order, with only blanks around them |
| Chunking.ContentIsConserved | src/modules/documents/chunking.service.ts:8-49 | the concatenated bodies equal the text, spaces and newlines aside |
| ChunkBounds.OverlapTidy | src/modules/documents/chunking.service.ts:51-65 | applying overlap adds one more end of the chunk before, and changes no body |
| ChunkBounds.SplitTidy | src/modules/documents/chunking.service.ts:13-65 | with k separators no body is empty or over-long, and at most k ends of the chunk before precede it |
| ChunkBounds.ChunkShape | src/modules/documents/chunking.service.ts:8-65 | each chunk of a long text is a duplicated prefix, made of at most four ends of the chunk before, and a body within the chunk size; the first has no prefix |
| ChunkBounds.OverlapBounds | src/modules/documents/chunking.service.ts:8-65 | no chunk is longer than chunkSize + 4*chunkOverlap (1800 by default) |
| ChunkBounds.LengthBoundIff | src/modules/documents/chunking.service.ts:61-62 | that bound holds for all texts exactly if there is some overlap |
| ChunkBounds.BoundIsReached | src/modules/documents/chunking.service.ts:8-65 | some text has a chunk of exactly that length |
| ChunkPacking.ChosenIsFirst | src/modules/documents/chunking.service.ts:18-37 | the separator is the first of the list that occurs in the text, and the finer ones are those behind it |
| ChunkPacking.SplitsAreLeftmost | src/modules/documents/chunking.service.ts:19 | the text is cut at the leftmost occurrences of the separator, and in no split is one left |
| ChunkPacking.SplitIffGreedy | src/modules/documents/chunking.service.ts:13-45 | for every text that has to be split, at every level: its bodies are the ones that take as many splits as fit, with the bodies of splits that are too long in their places, and no other list of bodies is |
| ChunkPacking.GreedyIsUnique | src/modules/documents/chunking.service.ts:24-45 | the splits determine such bodies |
| ChunkPacking.NeighboursDoNotFit | src/modules/documents/chunking.service.ts:25-41 | where no split is too long alone: a body, the separator and the first split of the next body are together longer than the chunk size |
| ChunkPacking.NeighboursShare | src/modules/documents/chunking.service.ts:51-65 | each chunk starts with the end of the one before: a whole overlap, or at least as much as the body before it holds |
| ChunkService.ChunkingService.ChunkText | src/modules/documents/chunking.service.ts:8-11 | the texts of the specified chunks for the four separators |
| ChunkService.ChunkingService.SplitText | src/modules/documents/chunking.service.ts:13-49 | the loop with its recursion: a text that fits is one chunk; the chunks of a longer one end in the bodies that take as many splits as fit |
| ChunkService.ChunkingService.ApplyOverlap | src/modules/documents/chunking.service.ts:51-65 | the overlap loop: each chunk behind the last units of the one before |
| Embeddings.EmbeddingsProvider.ReadCache | src/modules/vector-store/embeddings.provider.ts:22-24 | the cached vectors, by position |
| Embeddings.EmbeddingsProvider.FindUncached | src/modules/vector-store/embeddings.provider.ts:26-30 | every missing position is found, and as many as are missing |
| Embeddings.EmbeddingsProvider.FillIn | src/modules/vector-store/embeddings.provider.ts:32-50 | all positions end up with the embedder's vector, or the call fails; the cache stays consistent either way |
| Embeddings.EmbeddingsProvider.EmbedBatch | src/modules/vector-store/embeddings.provider.ts:21-53 | for any repeats, cache content, evictions and lost writes: one vector per chunk, equal to the embedder's, exactly if the service answers for all that is missing; and then all of them are cached but for the lost writes |
| Embeddings.NothingMissesIff | src/modules/vector-store/embeddings.provider.ts:32 | a batch needs nothing from the service exactly if all its chunks are cached |
| Embeddings.DocumentsService.EmbedAll | src/modules/documents/documents.service.ts:104-108 | the batches of 50 concatenate to one vector per chunk |
| Embeddings.DocumentsService.InsertAll | src/modules/documents/documents.service.ts:110-123 | one row for each chunk that is not empty, at its index |
| Embeddings.DocumentsService.ProcessIngestion | src/modules/documents/documents.service.ts:87-132 | INDEXED with all rows, or FAILED with none |
| Embeddings.NoChunkIsEmpty | src/modules/documents/documents.service.ts:114 | the skipped-chunk branch is taken for the empty text only |
| Embeddings.EveryChunkIsStored | src/modules/documents/documents.service.ts:111-122 | every chunk of a text is stored at its index with its vector, and nothing else |

## Left out

- Express wiring, validation, logging, configuration, health checks, sessions of the database driver: no state worth proving.
- Prompts, the model's answers, tools, password checks, JWT signing, hashing, text extraction, file storage: inputs of the model.
- The job queue: a job for an execution may run again at any time, any number of times.
- Interleavings inside the refresh, decide, expire and cancel handlers: they check and then write without a guard.
- A failed subscribe or subscriber error before the heartbeat exists: also makes cleanup throw; modelled as the end of the stream, which it is for the client.
- A commit order of events that differs from their sequence order; with the unique key each log is read in sequence order.
- Cursor encoding: a bijection, so a cursor is the id it encodes. The cursor of the approvals list is passed on undecoded and is not modelled.
- RunnerService.AgentRunnerService.Consume: one update loop undisturbed by other runs; loops that interleave are the moves of `AgentRunner`.
- RunnerService.AgentRunnerService.Run: events that nodes append themselves, memory extraction and pruning after completion are not part of the method; an outside cancel comes in between two updates only.
- Checkpoints.RoundKeeps: the class of a loaded message object, the fallback for objects without a type method, and keys with undefined values are not modelled.
- Checkpoints.CheckpointService.Prune: parents of kept rows that point to a deleted row; the database clears them, and nothing reads them.
- ToolExecutor.ToolExecutorService.Invoke: a tool that timed out may go on in the background; its late result is dropped.
- RateLimit.NeverMoreThanMax: counts the requests that Redis answered; those let through without an answer are not bounded by the program either.
- ChunkBounds.OverlapBounds: for a chunk size of 0 the bound counts it as 1, because a chunk holds at least one unit.
- ChunkBounds.BoundIsReached: stated for overlaps up to the chunk size; a larger overlap cannot be filled by the chunk before.
- Embeddings.DocumentsService.ProcessIngestion: two ingestions of one document at the same time.
- Splitting the final response into delta events, the manual step endpoint, tenant quotas, chats, users, memories and similarity search: simple members, or lossy by design.
