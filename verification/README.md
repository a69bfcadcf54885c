# z8run: a verified model of the flow engine

z8run executes directed graphs of nodes. A flow is checked for cycles, compiled into parallel
steps, and run by node tasks that pass messages over bounded channels; executions can be stopped
or cancelled at any time; webhooks feed flows and wait for a reply; history is recorded from the
engine's events. This project models these parts in Dafny and proves what they keep over every
input, every order a hash map may yield, and every interleaving.

`dafny verify dfyconfig.toml` checks everything.

## Layout

| file | what it models |
|---|---|
| `Digraphs.dfy` | graph theory the compiler is measured against: walks, cycles, clearing a graph in rounds |
| `Flows.dfy`, `Scheduler.dfy` | the flow, Kahn's algorithm with in-degree maps and queues, the layered plan |
| `TriggerBranch.dfy`, `CanvasFlows.dfy` | cutting a flow down to one trigger's branch; from a deployed canvas to the plan a hook runs |
| `PlanRun.dfy` | one run of a plan as a transition system: driver, node tasks, buffers, live senders, cancellation |
| `RunInvariant.dfy`, `RunResults.dfy`, `RunTermination.dfy`, `RunMoves.dfy`, `ScriptedRuns.dfy` | what every move of a run keeps; exact delivery and deadlock freedom; no endless run; a run read off its moves, and cancelled runs; runs that drop messages or overrun a channel |
| `Cancellation.dfy` | the cancellation handle: flag, notification, concurrent cancellers and waiters |
| `Lifecycle.dfy`, `Executions.dfy` | the map of active executions; concurrent drivers against stops and cancellations |
| `ExecutionHistory.dfy`, `RecordedRuns.dfy` | the recorder and the executions table, with lost events, failed writes and restarts; the history of the engine's own runs |
| `RateLimits.dfy`, `ClientAddress.dfy` | token buckets with lazy refill and eviction; the address a request is charged to |
| `Texts.dfy`, `HookRoutes.dfy`, `FlowStop.dfy` | path normalisation, the route table as an index of deployed snapshots, reading it for a request; stopping a flow |
| `HookLimits.dfy`, `HookCalls.dfy`, `HookBudget.dfy`, `HookExecutions.dfy` | per-flow slots; the hook call protocol with http-out nodes, timeouts and clients that go away; when the limit of calls and of executions per flow holds |
| `Templates.dfy`, `TemplateReferences.dfy` | placeholder substitution by a loop that rescans its own output, over whole templates; when the loop ends |
| `PluginNode.dfy` | the instance and the configuration of a plugin node whose calls may fail |

Code that updates state in place is a class or a method with loops, proved against functions on
values; code that runs concurrently is a transition system whose moves are the code's atomic
steps, and a run is any sequence of moves. Node ids, trace ids and row ids are `Uuid` (natural
numbers); where the code generates one, the model requires it to be fresh. Time is a real that
never goes back.

## What the code does not do

Several statements one might expect are false of the code. The model keeps the code as it is, and
proves where they fail and when they hold; each point names its lemmas.

- The cycle check is sound if every edge target is a node of the flow, and passes then exactly the
  flows without a cycle whose edge sources are nodes, too (`CheckExactWhenTargetsKnown`). A target
  that is no node can make up for a node on a cycle (`DanglingEdgeHidesCycle`) and makes a flow without
  one fail (`AcyclicPassesIffTargetsKnown`); a source that is no node makes a flow without a cycle fail (`DanglingSourceRejects`). `connect` and
  the canvas import make edges join nodes (`Flow.Connect`, `CanvasToFlow`).
- A message is dropped when its target was already fed by an earlier step, because that step's end
  drops the target's sender (crates/z8run-core/src/engine.rs:740-745). Nothing is dropped, by any edge and
  in any finished run, exactly when the feeders of every node share a step (`NothingDroppedIffAligned`,
  `NothingDroppedInRunsIff`); A to D, A to B, B to D is a flow that drops one (`LongWayDrops`). The comment at
  crates/z8run-core/src/engine.rs:618-624 says a node fires for each of several incoming edges; it does
  so only for feeders in the first such step.
- A message goes over a node's only live edge whatever its port (`StrayMessageIff`), and an edge may
  be the only live one because the other targets are disabled or were fed earlier (`LoneEdgeIff`).
- A run reaches its last step exactly when no enabled node is fed by disabled nodes only and no
  channel is sent more than its capacity (`CalmRunFinishesIff`), which any live edge can be brought
  to do (`OverrunReachable`); the comment at
  crates/z8run-core/src/engine.rs:619-622 that the channel drains without blocking needs both conditions.
- `Stopped` sticks unless it is set while the driver is about to emit or record another outcome
  (`StoppedSticksIff`).
- A flow that ends without an http-out node is not noticed: its caller waits for the timeout
  (`SilentFlowTimesOut`). The reply "Flow completed without sending a response"
  (crates/z8run-api/src/routes.rs:1300) is never given (`NoAnswerNeverComes`).
- A caller that goes away leaves its responder entry behind exactly when its call has registered the
  responder and not removed it and no http-out node took the sender (`LeavesEntryIff`, `EntryLeaks`);
  nothing but an http-out node naming the call's trace removes it then.
- The limit of calls per flow survives a release exactly when the release finds no call of the flow
  holding or choosing a slot (`ReleaseKeepsBoundIff`). It does not bound executions
  (`ExecutionsUnbounded`), although the comment at crates/z8run-api/src/routes.rs:1174-1175 says that an
  execution has finished or been cancelled when its slot is given back; it does exactly where that
  has been so and stays so (`ExecutionsBoundedIff`).
- The template loop may run for ever, exactly when references run in a circle if texts close their
  braces (`EndsIffNoCircle`), and it does not keep inserted objects (`InsertedObjectIsLost`).
- A request reads its route and the snapshot in two queries. It is authorised with its trigger's own
  configuration exactly when the snapshot read second has that configuration at the first node with
  the trigger's id (`ReadsOwnTriggerIff`); a deployment in between (`RedeployBetweenReads`) or another
  node with the same id (`SharedIdTakesOtherConfig`) breaks that.
- A start that read a flow before its deletion deploys it afterwards, and its routes stay live
  (`DeletedFlowStaysLive`); `DeployedButGoneIff` says exactly when a flow is deployed but not stored.
- A hook request that comes between the two steps of a stop is served, and its execution is not
  cancelled (`StopFlow`).
- The reset time of an allowed request is computed before its token is taken
  (crates/z8run-api/src/rate_limit.rs:54-63). When it has passed the bucket is full exactly if rounding
  up has made good for that token (`ResetIsRightIff`): it may have (`ResetCanBeRight`), but never for a
  request that found a full bucket, nor where a token takes a second or more (`ResetTooEarly`).

## Model

| member | source | states |
|---|---|---|
| Digraphs.DrainedIffAcyclic | crates/z8run-core/src/flow.rs:270-288 | Clearing a graph in rounds of nodes whose sources are cleared empties it exactly when it has no directed cycle. |
| Digraphs.PeelIffShortWalks | crates/z8run-core/src/scheduler.rs:63-85 | A node is cleared within k rounds exactly when every chain of edges ending at it has fewer than k edges. |
| Flows.Flow.Connect | crates/z8run-core/src/flow.rs:175-219 | An edge is added only between existing nodes and compatible first-named ports; every failure is the one the code reports, changes nothing, and all edges keep joining nodes. |
| Flows.Flow.FindNode | crates/z8run-core/src/flow.rs:222-224 | The first node with the id, none exactly when the id is no node's. |
| Flows.Flow.AddNode | crates/z8run-core/src/flow.rs:169-172 | Adding a node leaves every edge joining nodes of the flow. |
| Flows.Flow.InDegrees | crates/z8run-core/src/flow.rs:258-264 | Every id, and every edge target that is no id, is counted with the multiplicity of the edges entering it. |
| Flows.Seed | crates/z8run-core/src/flow.rs:266-270 | The nodes of in-degree zero, each once, in any order. |
| Flows.Visit | crates/z8run-core/src/flow.rs:274-284 | A node is visited only once and after all its sources, and the bookkeeping is right again afterwards. |
| Flows.Flow.ValidateAcyclic | crates/z8run-core/src/flow.rs:255-291 | For every queue order and with parallel edges: if edges join nodes, Ok exactly when the graph has no directed cycle; if only the targets are known to be nodes, Ok exactly when moreover the sources are; for any flow, Ok exactly when as many nodes drain as there are ids. |
| Flows.Flow.TopologicalOrder | crates/z8run-core/src/flow.rs:294-325 | An order exists exactly when there is no cycle; it lists every id once and the source of every edge before its target. |
| Flows.ReduceSuccessors | crates/z8run-core/src/flow.rs:275-282 | Relaxing a node's edges never takes an in-degree below zero, and queues, once each, exactly the nodes whose last unprocessed source it was. |
| Flows.CountDown | crates/z8run-core/src/flow.rs:277-278 | An edge not yet relaxed has a target of positive in-degree, counted with multiplicity. |
| Flows.KahnFinished | crates/z8run-core/src/flow.rs:273-286 | When the queue runs empty exactly the nodes not behind or on a cycle have been visited. |
| Flows.CheckExactWhenClosed | crates/z8run-core/src/flow.rs:255-291 | If every endpoint is a node, passing the check and having no cycle are the same. |
| Flows.CheckExactWhenTargetsKnown | crates/z8run-core/src/flow.rs:255-291 | If every edge target is a node, the check passes exactly the flows without a cycle whose edge sources are nodes, too. |
| Flows.AcyclicPassesIffTargetsKnown | crates/z8run-core/src/flow.rs:262-288 | If every edge source is a node, a flow without a cycle passes exactly when every edge target is a node, too. |
| Flows.DanglingSourceRejects | crates/z8run-core/src/flow.rs:262-288 | With the one edge X to A and X no node, the check fails although there is no cycle. |
| Flows.DanglingEdgeHidesCycle | crates/z8run-core/src/flow.rs:262-288 | With edges A to X and B to B and X no node, the check passes although B lies on a cycle. |
| Scheduler.Compile | crates/z8run-core/src/scheduler.rs:34-90 | A plan exists exactly when there is no cycle; its steps are the rounds of clearing the enabled subgraph, and it counts every enabled node. |
| Scheduler.EnabledInDegrees | crates/z8run-core/src/scheduler.rs:38-52 | In-degrees of the enabled nodes count exactly the edges between enabled nodes, with multiplicity. |
| Scheduler.RunBatch | crates/z8run-core/src/scheduler.rs:72-82 | Processing one whole batch clears exactly one more round and queues exactly the next. |
| Scheduler.StepsPartitionNodes | crates/z8run-core/src/scheduler.rs:63-85 | Every enabled node is in exactly one step and the steps hold nothing else. |
| Scheduler.StepIsLongestChain | crates/z8run-core/src/scheduler.rs:63-85 | A node is in step k exactly when the longest chain of enabled edges ending at it has k edges. |
| Scheduler.DepthIsMinimal | crates/z8run-core/src/scheduler.rs:102-104 | No assignment of steps under which every enabled edge goes forward has fewer steps than the plan. |
| Scheduler.PlanRespectsEdges | crates/z8run-core/src/scheduler.rs:72-82 | Every enabled edge goes from a step to a later one, so the plan itself attains that minimum. |
| Scheduler.EnabledAcyclic | crates/z8run-core/src/scheduler.rs:36-52 | Disabling nodes of a flow without cycles introduces none, so every enabled node is scheduled. |
| TriggerBranch.ReachableFrom | crates/z8run-api/src/routes.rs:1034-1042 | The search ends on every graph, cycles included, with exactly the nodes reachable from the trigger. |
| TriggerBranch.RestrictToTrigger | crates/z8run-api/src/routes.rs:1033-1046 | Keeps exactly the nodes and edges at the positions with reachable ids and ends: each as often as before and in the same order; and edges keep joining nodes. |
| TriggerBranch.BranchKeepsWalks | crates/z8run-api/src/routes.rs:1043-1045 | The paths from the trigger are the same before and after the restriction. |
| TriggerBranch.TriggerIsOnlyRoot | crates/z8run-api/src/routes.rs:1027-1032 | In a branch without cycles the trigger is the only node no edge enters. |
| TriggerBranch.CompileBranch | crates/z8run-api/src/routes.rs:1199-1208 | The branch compiles exactly when it has no cycle, and then step 0 is the trigger alone, so only it takes the trigger message. |
| CanvasFlows.CanvasToFlow | crates/z8run-api/src/routes.rs:643-742 | Fails exactly without a canvas; otherwise one enabled node per canvas node, with its ports, one edge per canvas edge with both ends known, from the source's handle to the target's, both in order; and every edge joins nodes of the flow. |
| CanvasFlows.PrepareHook | crates/z8run-api/src/routes.rs:1185-1208 | A hook runs a plan exactly when its trigger is on the canvas and the trigger's branch has no cycle; the plan covers the branch and starts with the trigger alone. |
| CanvasFlows.RoutedTriggerIsFound | crates/z8run-api/src/routes.rs:1109-1208 | With any operations between the two reads, a request passes both checks for its trigger exactly when the snapshot last written has a node with the route's id; always if nothing in between writes it; and the second check never fails after the first passed. |
| PlanRun.DispatchOutputs | crates/z8run-core/src/engine.rs:343-366 | The sends come out message by message, edge by edge, over edges whose port matches or over a lone edge. |
| PlanRun.PlanIsValid | crates/z8run-core/src/engine.rs:425-560 | Any plan that compiles is one the run results below apply to. |
| RunInvariant.InvAlways | crates/z8run-core/src/engine.rs:533-749 | In every reachable state: who holds which receiver and sender, which sends are pending, sent or lost, and that a buffer plus what its reader processed is what was sent to it. |
| RunInvariant.TargetWaits | crates/z8run-core/src/engine.rs:361-363 | A send always finds its target's receiver alive and its target not started. |
| RunResults.EdgeIsLive | crates/z8run-core/src/engine.rs:597-606 | An edge between enabled nodes gets a channel exactly when no enabled node of an earlier step feeds its target. |
| RunResults.ExactDelivery | crates/z8run-core/src/engine.rs:594-654 | In a finished run each node processed, in order, exactly what was sent to it; between two nodes that is what the sender's outputs route over its live edges, all from the earliest feeding step, and nothing is lost. |
| RunResults.RouteIsCopies | crates/z8run-core/src/engine.rs:350-365 | What a node sends to another is its outputs in order, each once for every edge that carries it. |
| RunResults.StrayMessageIff | crates/z8run-core/src/engine.rs:352 | A message from another port reaches a target exactly when the node has one live edge and it leads there. |
| RunResults.LoneEdgeIff | crates/z8run-core/src/engine.rs:597-606 | An edge is the only live one of its source exactly when it feeds its target first and every other edge leads to a disabled node or to one fed earlier. |
| RunResults.NothingDroppedIffAligned | crates/z8run-core/src/engine.rs:740-745 | Every edge between enabled nodes carries its messages exactly when the enabled feeders of every node share a step. |
| RunResults.AlignedDelivery | crates/z8run-core/src/engine.rs:594-654 | With such feeders no dispatched message is lost or duplicated, fan-in included. |
| RunMoves.DispatchedAsReturned | crates/z8run-core/src/engine.rs:644-653 | In every legal run, cancelled and failed ones included, what a node dispatched is the routing over its live edges of everything it returned in the run, in order: to each node each returned message once for every edge that carries it there. |
| RunMoves.DeliveredAsReturned | crates/z8run-core/src/engine.rs:617-654 | In a finished run a node was sent by each other node exactly what that returned in the run, in order, once for every carrying live edge; it processed all that was sent to it, and returned exactly once for each message it processed. |
| RunMoves.AlignedAsReturned | crates/z8run-core/src/engine.rs:594-654 | When the feeders of every node share a step, that holds over all edges to enabled nodes. |
| RunMoves.NoStepAfterCancel | crates/z8run-core/src/engine.rs:561-573 | No step is started after a cancellation. |
| RunMoves.CancelEndsRun | crates/z8run-core/src/engine.rs:705-733 | A cancelled run ends whatever its tasks are doing, blocked ones included, in at most two moves of the driver. |
| RunMoves.EndsForAReason | crates/z8run-core/src/engine.rs:705-733 | A run ends as cancelled only after a cancellation and with an error only after a node failed. |
| ScriptedRuns.NothingDroppedInRunsIff | crates/z8run-core/src/engine.rs:740-745 | In a program without orphans whose channels hold a message for each of any parallel edges: no finished run drops a message if and only if the enabled feeders of every node share a step. |
| ScriptedRuns.LongWayDrops | crates/z8run-core/src/engine.rs:740-745 | A to D, A to B, B to D compiles into three steps and has a finished run that drops a message, whatever the capacity. |
| RunResults.Progress | crates/z8run-core/src/engine.rs:705-733 | Without orphans and within capacity, an unfinished run always has a move that is neither a cancellation nor a failure. |
| RunResults.OrphanWaits | crates/z8run-core/src/engine.rs:552-558 | An enabled node fed only by disabled nodes never gets past its first receive. |
| RunResults.EnabledSourcesNoOrphans | crates/z8run-core/src/engine.rs:552-558 | A flow whose edges all start at enabled nodes has no such node. |
| RunResults.FinishedWithinCapacity | crates/z8run-core/src/engine.rs:554 | A run that finished dispatched to no node more messages than its channel holds. |
| RunResults.FinishesIff | crates/z8run-core/src/engine.rs:533-749 | A run driven as far as it goes, neither cancelled nor failed, has finished exactly when there are no orphans and no channel was over its capacity. |
| RunTermination.EveryMoveFalls | crates/z8run-core/src/engine.rs:560-749 | Every move of a run lowers one well-founded measure. |
| RunTermination.NoEndlessRun | crates/z8run-core/src/engine.rs:560-749 | No schedule of the tasks can be followed for ever. |
| RunTermination.CalmRunCompletes | crates/z8run-core/src/engine.rs:560-749 | Every run without cancellation or failure goes on until nothing but a cancellation can move. |
| RunTermination.CalmRunFinishesIff | crates/z8run-core/src/engine.rs:552-749 | Such a completed run reached its last step if and only if there are no orphans and no channel was sent more than it holds. |
| RunTermination.OverCapacityBlocks | crates/z8run-core/src/engine.rs:361-363 | One message over the bound leads to an unfinished state that only a cancellation can leave. |
| ScriptedRuns.OverrunReachable | crates/z8run-core/src/engine.rs:552-558 | In every program without orphans, any edge that gets a channel has a run without failure or cancellation that hands its target more messages than the channel holds. |
| Cancellation.NoneReturnsEarly | crates/z8run-core/src/engine.rs:160-174 | No waiter returns before the flag is set. |
| Cancellation.NoLostWakeup | crates/z8run-core/src/engine.rs:149-174 | In every state after some cancel completed, every waiter that has not returned can move. |
| Cancellation.BlockedMeansNotifyPending | crates/z8run-core/src/engine.rs:149-152 | With the flag up, a waiter that cannot move is owed a notification by a task between its two steps. |
| Cancellation.WaiterFinishes | crates/z8run-core/src/engine.rs:160-174 | With the flag up, each waiter returns within two moves of its own, whatever the others do. |
| Lifecycle.FlowEngine.Register | crates/z8run-core/src/engine.rs:446-462 | A new execution is running, uncancelled, with a handle no other execution shares. |
| Lifecycle.FlowEngine.Stop | crates/z8run-core/src/engine.rs:757-771 | Cancels and marks stopped every execution of the flow, and touches no other. |
| Lifecycle.FlowEngine.CancelExecution | crates/z8run-core/src/engine.rs:775-784 | Cancels that execution alone; false exactly when it is not in the map, and then nothing changes. |
| Lifecycle.FlowEngine.SetExecutionStatus | crates/z8run-core/src/engine.rs:803-807 | Changes the status of that entry alone, and keeps its cancellation. |
| Lifecycle.FlowEngine.RemoveExecution | crates/z8run-core/src/engine.rs:812-814 | The entry is gone and all others are unchanged. |
| Lifecycle.FlowEngine.Conclude | crates/z8run-core/src/engine.rs:480-527 | Undisturbed, a driver ends with FlowStopped exactly if its flag is up, otherwise with FlowCompleted or FlowError as its plan returned Ok or an error, and with its entry and no other gone. |
| Executions.OneTerminalEvent | crates/z8run-core/src/engine.rs:464-527 | Over every interleaving an execution emits FlowStarted and then at most one terminal event, and exactly one by the time it has left the map; it is in the map from before the first until after the second. |
| Executions.EndIsReachable | crates/z8run-core/src/engine.rs:464-527 | Whatever has happened so far, some continuation takes an execution in progress out of the map with FlowStarted and exactly one terminal event. |
| Executions.DriversCanMove | crates/z8run-core/src/engine.rs:473-528 | In every reachable state a driver that has not removed itself can move, or the stop that holds the lock can. |
| Executions.DriverEnds | crates/z8run-core/src/engine.rs:480-527 | Once its plan has returned, a driver is brought by at most four moves of its own to its terminal event and out of the map; no other move puts that off. |
| Executions.NeverAgain | crates/z8run-core/src/engine.rs:521-527 | Once removed, an execution never enters the map again and emits nothing more. |
| Executions.CancelForcesStopped | crates/z8run-core/src/engine.rs:480-492 | After a cancellation that precedes the driver's flag check the only terminal event is FlowStopped, and no further step is started. |
| Executions.CancelMoveForcesStopped | crates/z8run-core/src/engine.rs:757-784 | A cancellation that reaches an execution before its driver reads the flag: whatever follows, it can only end with FlowStopped and starts no further step. |
| Executions.EndsForAReason | crates/z8run-core/src/engine.rs:473-518 | Over every run: FlowCompleted comes only after the plan returned Ok, FlowError only after it returned an error, FlowStopped only after a cancellation. |
| Executions.FlagReadSettles | crates/z8run-core/src/engine.rs:480-519 | What a driver finds when it reads its flag settles its terminal event and the status recorded with it: stopped with the flag up; Completed or Error as the plan returned with the flag down, which only a later stop overwrites. |
| Executions.StopReachesAll | crates/z8run-core/src/engine.rs:761-768 | When stop returns every execution of its flow then in the map is cancelled. |
| Executions.StopTouchesItsFlowOnly | crates/z8run-core/src/engine.rs:761-768 | In every run a stop cancels and marks stopped only executions of its flow, and changes no other entry. |
| Executions.StoppedStatus | crates/z8run-core/src/engine.rs:480-519 | What the status of every entry is: before an outcome is recorded, Stopped exactly when cancelled; afterwards that outcome, or Stopped by a cancellation. |
| Executions.StoppedSticksIff | crates/z8run-core/src/engine.rs:480-527 | A Stopped entry stays so in every continuation exactly when its driver has not read its flag yet, has decided to stop, or has already recorded its outcome; otherwise some continuation overwrites it. |
| Executions.StopOverwritten | crates/z8run-core/src/engine.rs:494-506 | A run from the start in which a stop completes after the driver's flag check, the status becomes Completed and FlowCompleted is emitted. |
| ExecutionHistory.ExecutionTable.RecordCompletion | crates/z8run-storage/src/sqlite.rs:401-428 | Only a row still running is changed, whatever the write reports. |
| ExecutionHistory.ExecutionTable.RecordStart | crates/z8run-storage/src/sqlite.rs:378-399 | A write that takes effect adds one running row and changes no other; it succeeds only if it took effect, but may take effect and still report an error. |
| ExecutionHistory.Recorder.HandleEvent | crates/z8run-api/src/execution_recorder.rs:25-83 | One event changes the rows and the starts in flight as the history lemmas assume, for every outcome of its write. |
| ExecutionHistory.ExecutionTable.InterruptRunning | crates/z8run-storage/src/sqlite.rs:430-451 | Exactly the running rows older than the cutoff change, and the number returned is how many did. |
| ExecutionHistory.Recorder.Record | crates/z8run-api/src/execution_recorder.rs:19-91 | The loop over any stream of events, with any dropped and any write failing, is the fold the lemmas below are about. |
| ExecutionHistory.RowsMoveForward | crates/z8run-storage/src/sqlite.rs:412-417 | A row leaves running at most once, never changes afterwards, and keeps its identity. |
| ExecutionHistory.InFlightExact | crates/z8run-api/src/execution_recorder.rs:22-74 | In flight are exactly the recorded starts with no terminal event handled since. |
| ExecutionHistory.RowFollowsItsTrace | crates/z8run-api/src/execution_recorder.rs:34-73 | What becomes of a row is decided by its own trace's events and restarts alone. |
| ExecutionHistory.OutcomeIsFirstEnd | crates/z8run-api/src/execution_recorder.rs:34-73 | A row ends with the first terminal event handled for its trace, or was closed by a restart with a later cutoff, or is still running. |
| ExecutionHistory.RestartReconciles | bins/z8run-cli/src/main.rs:407-422 | After a reconciliation that took effect no row older than the cutoff is running, then or later. |
| ExecutionHistory.ReconciledForGood | bins/z8run-cli/src/main.rs:407-422 | Rows of runs that start later never make an older row running again. |
| RecordedRuns.HistoryIsFaithful | crates/z8run-api/src/execution_recorder.rs:22-74 | Over every interleaving of drivers, stops and cancellations with all events delivered and written: an execution has no row before it is announced, a running row in flight until it ends, and then the row of its terminal event. |
| RecordedRuns.RowsSayWhatHappened | crates/z8run-api/src/execution_recorder.rs:34-73 | The row of an execution that is over is completed only if its plan returned Ok, failed with its error text only if it returned an error, stopped only if it was cancelled. |
| RateLimits.TokenBucket.TryConsume | crates/z8run-api/src/rate_limit.rs:45-68 | Answers from the refilled level and takes one token exactly when it allows. |
| RateLimits.RateLimiter.Check | crates/z8run-api/src/rate_limit.rs:118-133 | One client's request is answered from its level, a new client's being full; no other client's bucket changes; a disabled limiter allows all and keeps no state. |
| RateLimits.RateLimiter.Evict | crates/z8run-api/src/rate_limit.rs:100-112 | Exactly the buckets used within the last two windows stay, as they were. |
| RateLimits.TokensInRange | crates/z8run-api/src/rate_limit.rs:45-68 | Tokens stay between zero and the capacity over every run. |
| RateLimits.RefillInPieces | crates/z8run-api/src/rate_limit.rs:49-52 | Refilling in pieces equals refilling at once, so looking never changes a level. |
| RateLimits.RateBound | crates/z8run-api/src/rate_limit.rs:45-133 | In any run and any interval of length T at most max + T * max / window requests of a client are allowed, with buckets created and evicted anywhere. |
| RateLimits.EvictionIsInvisible | crates/z8run-api/src/rate_limit.rs:100-112 | A limiter that evicts answers every request of every run as one that never does. |
| RateLimits.DeniedIsInvisible | crates/z8run-api/src/rate_limit.rs:61-67 | A denied request changes no later answer. |
| RateLimits.RetryAfterIsRight | crates/z8run-api/src/rate_limit.rs:64-66 | With nothing allowed in between, a request is allowed exactly from (1 - tokens) / rate after a denial on; the Retry-After seconds (section 10.2.3 of RFC 9110) are enough, and one second less is not. |
| RateLimits.FullAgainIff | crates/z8run-api/src/rate_limit.rs:45-68 | After an allowed request with nothing allowed in between, the bucket is full exactly from (max - tokens + 1) / rate on. |
| RateLimits.ResetIsRightIff | crates/z8run-api/src/rate_limit.rs:54-63 | When the reported reset time of an allowed request has passed, the bucket is full exactly if the rounded-up time for the tokens missing before covers its own as well. |
| RateLimits.ResetTooEarly | crates/z8run-api/src/rate_limit.rs:54-63 | It is too early for every request that found a full bucket, and for every request where a token takes a second or more. |
| RateLimits.ResetCanBeRight | crates/z8run-api/src/rate_limit.rs:54-63 | With 100 tokens a minute and 99.5 of them there it is right. |
| RateLimits.RemainingIsExact | crates/z8run-api/src/rate_limit.rs:61-63 | After an allowed request exactly the reported number of further requests pass at once. |
| ClientAddress.ExtractClientIp | crates/z8run-api/src/rate_limit.rs:209-252 | An untrusted peer is itself whatever the headers say; a trusted one yields where the walk through trusted hops ends. |
| ClientAddress.ClientIsUnique | crates/z8run-api/src/rate_limit.rs:239-251 | The walk has one stopping point and one outcome. |
| ClientAddress.RightmostUntrusted | crates/z8run-api/src/rate_limit.rs:239-251 | If every hop right of an untrusted one is trusted, that one is the client. |
| ClientAddress.PrependingChangesNothing | crates/z8run-api/src/rate_limit.rs:239-251 | Entries prepended to a list inside which the walk stopped change nothing. |
| ClientAddress.UnstoppedWalkFollowsPrefix | crates/z8run-api/src/rate_limit.rs:239-251 | If every hop is trusted, a prepended entry becomes the client. |
| HookRoutes.NormalFormIsStable | crates/z8run-api/src/routes.rs:522-529 | A normalised path starts with exactly one slash and is its own normal form. |
| Texts.WhiteSpaceIs | crates/z8run-api/src/routes.rs:523 | What trimming takes for white space is exactly the code points with the Unicode White_Space property. |
| HookRoutes.NormalFormOf | crates/z8run-api/src/routes.rs:522-529 | White space, any number of slashes, a core and white space have the normal form of one slash and the whole core, so different cores stay different. |
| HookRoutes.PathParts | crates/z8run-api/src/routes.rs:522-529 | Every path is made up like that. |
| HookRoutes.TriggerAnswers | crates/z8run-api/src/routes.rs:538-585 | A deployed http-in, webhook or webhook-trigger node answers its upper-cased method and its path in normal form, POST and the root when it names none. |
| HookRoutes.OthersAnswerNothing | crates/z8run-api/src/routes.rs:538-566 | Nodes of other types, or without an id, answer nothing. |
| HookRoutes.CollectHookRoutes | crates/z8run-api/src/routes.rs:538-585 | Fails exactly when two triggers declare one method and path, and names it; otherwise one route per trigger with an id, in canvas order. |
| HookRoutes.SqliteStorage.DeployFlow | crates/z8run-storage/src/sqlite.rs:265-320 | Snapshot and routes are replaced together, or nothing changes when two routes collide. |
| HookRoutes.SqliteStorage.UndeployFlow | crates/z8run-storage/src/sqlite.rs:360-373 | Snapshot and routes of the flow are gone; all others are unchanged. |
| HookRoutes.SqliteStorage.SaveFlow | crates/z8run-storage/src/sqlite.rs:51-84 | Changes the live flow only, neither snapshots nor routes. |
| HookRoutes.SqliteStorage.StartFlow | crates/z8run-api/src/routes.rs:438-515 | Deploys a canvas with triggers, retires the routes of one without, and leaves everything alone when it is missing or ambiguous. |
| HookRoutes.AlwaysAgrees | crates/z8run-storage/src/sqlite.rs:265-373 | After any sequence of saves, starts (of any canvas read earlier), undeployments and deletions the route table is exactly the index of the deployed snapshots, and no route lacks a snapshot. |
| HookRoutes.LookupFindsTheTrigger | crates/z8run-storage/src/sqlite.rs:322-345 | A lookup finds a node exactly when it is the unique trigger of the deployed snapshot with that method and normalised path. |
| HookRoutes.ReadsOwnTriggerIff | crates/z8run-api/src/routes.rs:1109-1160 | With any operations between reading the route and the snapshot: exactly when the request fails for want of a snapshot or of a node with the id, and exactly when it is authorised with the route's own trigger's configuration, namely when the first node with its id in the second snapshot has it. |
| HookRoutes.SnapshotIsLastWritten | crates/z8run-storage/src/sqlite.rs:265-373 | The snapshot after any operations is that of the last deployment or retirement of the flow itself; saves and other flows' operations do not touch it. |
| HookRoutes.LookupYieldsItsConfig | crates/z8run-api/src/routes.rs:885-893 | If nothing between the reads writes the snapshot the request finds a configuration, and it is its trigger's own exactly when the first node with the trigger's id has the same. |
| HookRoutes.FirstDecides | crates/z8run-api/src/routes.rs:885-893 | A configuration is found exactly when some node has the id, and it is that of the first such node, trigger or not. |
| HookRoutes.SharedIdTakesOtherConfig | crates/z8run-api/src/routes.rs:885-893 | A reachable state in which requests are authorised with the configuration of an earlier node of the same id, plain or a trigger on another route. |
| HookRoutes.RedeployBetweenReads | crates/z8run-api/src/routes.rs:1109-1160 | A deployment between the reads makes the request fail, or be authorised with the new trigger of the same id; a retirement leaves no snapshot. |
| HookRoutes.SqliteStorage.ReadForHook | crates/z8run-api/src/routes.rs:1109-1160 | The handler's reads, with any other requests served in between, find what the two tables give, and those requests change the tables as the lemmas assume. |
| HookRoutes.DeployedButGoneIff | crates/z8run-storage/src/sqlite.rs:229-250 | A flow is deployed but not stored exactly when every save of it was followed by its removal and the last operation to write its snapshot deployed it. |
| HookRoutes.DeletedFlowStaysLive | crates/z8run-api/src/routes.rs:420-477 | A start that read the flow before its deletion leaves its route live. |
| FlowStop.StopFlow | crates/z8run-api/src/routes.rs:855-882 | A stop with a hook request between its steps: the routes are retired, every execution from before is cancelled, and exactly the request's, if it was routed, is not. |
| HookLimits.HookSlots.TryAcquire | crates/z8run-api/src/hook_limits.rs:57-67 | Grants a slot exactly when the flow's semaphore, made on first use, has a free permit, and takes just that permit. |
| HookLimits.HookSlots.SemaphoreOf | crates/z8run-api/src/hook_limits.rs:58-65 | The flow's own semaphore, made full if the flow has none; no existing semaphore changes. |
| HookLimits.HookSlots.DropPermit | crates/z8run-api/src/hook_limits.rs:54-67 | A dropped permit goes back to the semaphore it came from, tracked or not. |
| HookLimits.HookSlots.Release | crates/z8run-api/src/hook_limits.rs:72-77 | The flow is forgotten; no permit of any semaphore changes. |
| HookCalls.PermitsConserved | crates/z8run-api/src/hook_limits.rs:57-77 | For every semaphore ever made, permits held by calls plus permits free are max_concurrency, in every reachable state, across releases. |
| HookCalls.ReturnedCallIsClean | crates/z8run-api/src/routes.rs:1174-1318 | A call that returned left no responder entry, gave its slot back, was sent at most one reply, and answers with it unless the execution failed; it timed out exactly if its execution was cancelled. |
| HookCalls.TurnedAwayIff | crates/z8run-api/src/hook_limits.rs:57-67 | A call is turned away exactly when the semaphore it chose has given all its permits to calls. |
| HookCalls.RepliesMean | crates/z8run-api/src/routes.rs:1174-1318 | Each reply means what it says: not runnable, execution not started, timed out, or answered exactly after the move that settles it, and turned away otherwise. |
| HookCalls.AnsweredAsSent | crates/z8run-core/src/nodes/http_out.rs:60-75 | A call's answer is, word for word, one that an http-out node sent under its trace. |
| HookCalls.CallsCanMove | crates/z8run-api/src/routes.rs:1174-1318 | A call that is not over always has a move of its own. |
| HookCalls.CallsFinish | crates/z8run-api/src/routes.rs:1174-1318 | Its own moves bring its end nearer, and no one else's move puts it off. |
| HookBudget.FlowBound | crates/z8run-api/src/hook_limits.rs:54-77 | A flow has at most max_concurrency calls holding a slot, through any releases that each find none of its calls holding or choosing one. |
| HookBudget.ReleaseKeepsBoundIff | crates/z8run-api/src/hook_limits.rs:69-77 | From every reachable state: a release of the flow keeps that bound in all continuations if and only if it finds the flow idle; otherwise some continuation exceeds it. |
| HookBudget.BoundBroken | crates/z8run-api/src/hook_limits.rs:69-77 | For every limit, a run from the start in which more calls than that hold a slot. |
| HookExecutions.ExecutionBound | crates/z8run-api/src/routes.rs:1174-1176 | With quiet releases the limit bounds the executions of a flow while none of them outlives its call. |
| HookExecutions.ExecutionsBoundedIff | crates/z8run-api/src/routes.rs:1174-1176 | After any run with quiet releases: the limit bounds the flow's executions in all such continuations in which none outlives its call from now on, if and only if none has outlived its call yet. |
| HookExecutions.ExecutionsUnbounded | crates/z8run-api/src/routes.rs:1174-1176 | From every reachable state, without any release, the executions of a flow can exceed any number. |
| HookBudget.EntryLeaks | crates/z8run-api/src/routes.rs:1246-1248 | A run from the start that leaves the entry of a client that went away. |
| HookCalls.OnlyAbandonedCallsLeak | crates/z8run-api/src/routes.rs:1246-1318 | A responder entry belongs to a call under way or to a client that went away. |
| HookCalls.LeavesEntryIff | crates/z8run-api/src/routes.rs:1246-1318 | In every reachable state: a client that goes away leaves an entry exactly when its call has registered its responder and not removed it and no http-out node took the sender, and the entry is there in a continuation exactly as long as no node takes it in that. |
| HookCalls.TakenByNode | crates/z8run-core/src/nodes/http_out.rs:60-75 | A sender is taken only by an http-out node that named the call's trace. |
| HookCalls.AbandonedEntryStays | crates/z8run-core/src/nodes/http_out.rs:59-75 | Such a left-over entry stays through every further run in which no http-out node takes it. |
| HookCalls.SilentFlowTimesOut | crates/z8run-api/src/routes.rs:1284-1318 | A call whose responder no http-out node takes is neither answered nor told that there is no answer. |
| HookCalls.NoAnswerNeverComes | crates/z8run-api/src/routes.rs:1295-1302 | No reachable call is told that its flow completed without a response. |
| Templates.Substitute | crates/z8run-core/src/nodes/function.rs:44-62 | On every text on which the rescanning loop ends, its result is the unique final text of the rewriting. |
| Templates.PlaceholderIsFirst | crates/z8run-core/src/nodes/function.rs:49-54 | A turn finds a placeholder exactly when a closing brace stands behind an opening one: from the first opening brace to the first closing brace behind it. |
| Templates.TurnPutsIn | crates/z8run-core/src/nodes/function.rs:55-61 | A turn puts in a text as it is, "null" for a missing value, and the text of any other value. |
| Templates.LonePlaceholderKeepsValue | crates/z8run-core/src/nodes/function.rs:33-43 | A text that is one placeholder in white space becomes the value itself, whatever its kind, unless there is none. |
| Templates.FinishedTextReadBack | crates/z8run-core/src/nodes/function.rs:64-70 | A finished text that reads as a number or a boolean becomes it, any other stays a text. |
| Templates.TurnTakesBraces | crates/z8run-core/src/nodes/function.rs:46-62 | A turn whose replacement has no opening brace leaves fewer opening braces. |
| Templates.LoopIsOnePass | crates/z8run-core/src/nodes/function.rs:44-62 | If no inserted text can start a placeholder, the loop ends after one turn per placeholder and equals one left-to-right pass, unclosed placeholders included. |
| Templates.HarmlessExactly | crates/z8run-core/src/nodes/function.rs:46-62 | That condition on the inserted texts is exact: it holds if and only if no turn, however long the loop runs, takes inserted text for the start of a placeholder. |
| Templates.BracelessIsHarmless | crates/z8run-core/src/nodes/function.rs:52-61 | That condition holds for every template whose looked-up texts have no opening brace. |
| Templates.PassIsStable | crates/z8run-core/src/nodes/function.rs:44-62 | Then a second pass over the result changes nothing. |
| Templates.SelfReferenceNeverStops | crates/z8run-core/src/nodes/function.rs:46-62 | A value whose text holds a placeholder for itself makes the loop run for ever, whatever stands around it. |
| TemplateReferences.EndsIffNoCircle | crates/z8run-core/src/nodes/function.rs:46-62 | When the texts put in close every brace they open, the loop ends on a template if and only if no chain of references from its placeholders runs in a circle. |
| TemplateReferences.ChainsBoundedByTurns | crates/z8run-core/src/nodes/function.rs:46-62 | The loop takes at least as many turns as any chain of references is long. |
| Templates.InsertedObjectIsLost | crates/z8run-core/src/nodes/function.rs:52-61 | For every object amid other text: what stands from its opening to its first closing brace is taken for a placeholder and replaced, and the loop goes on from there. |
| Templates.ResolveTemplate | crates/z8run-core/src/nodes/function.rs:26-83 | The recursion over the template with the loop in its texts computes the resolution, keys and order kept. |
| Templates.ResolvedInPlace | crates/z8run-core/src/nodes/function.rs:72-82 | Wherever a part of the template stood, the result has that part resolved: arrays keep their length, objects their keys and order, and everything but texts its value. |
| Templates.ResolutionIsOnePass | crates/z8run-core/src/nodes/function.rs:26-83 | On templates of harmless texts resolution always ends and is one pass over each text. |
| Templates.PlainTemplateUnchanged | crates/z8run-core/src/nodes/function.rs:28-31 | A template without opening braces is its own result, whatever the input. |
| PluginNode.NodeState.WithInstance | crates/z8run-runtime/src/executor.rs:55-73 | The call reaches a live instance, or a fresh one given the kept configuration first; a failure discards it; the kept configuration does not change. |
| PluginNode.NodeState.Serve | crates/z8run-runtime/src/executor.rs:78-181 | A request without a slot changes nothing; with one, only a configure that succeeds replaces the kept configuration. |
| PluginNode.SucceedsIff | crates/z8run-runtime/src/executor.rs:55-111 | A request succeeds exactly when it has a slot, an instance is live or is made and takes the kept configuration, and the call succeeds. |
| PluginNode.ServesByCalls | crates/z8run-runtime/src/executor.rs:55-73 | Which instances a request makes, which calls it makes into which instance, and that an instance is live afterwards exactly if it succeeded. |
| PluginNode.LiveInstanceInStep | crates/z8run-runtime/src/executor.rs:42-73 | A live instance has last been given exactly the configuration accepted last. |
| PluginNode.CallsRunUnderAccepted | crates/z8run-runtime/src/executor.rs:55-73 | Every request reaches an instance running under the configuration accepted last before it. |
| PluginNode.KeptIsAccepted | crates/z8run-runtime/src/executor.rs:170-181 | The kept configuration is that of the last configure that succeeded, so a rejected one leaves the one before in force. |
| PluginNode.NoUseAfterFailure | crates/z8run-runtime/src/executor.rs:68-71 | No instance is called again after one of its calls failed. |

## Left out

- Templates.Substitute: requires that the loop ends on its input, because a method that may run for ever has no result to state.
- TemplateReferences.EndsIffNoCircle: is about inputs whose texts close every brace they open; with texts that leave a brace open the loop reads paths across their ends, and only `LoopIsOnePass` and `SelfReferenceNeverStops` say when it ends.
- RunResults.ExactDelivery: is about runs that finished; in a cancelled or failed run only the invariant of `RunInvariant` is stated.
- ScriptedRuns.NothingDroppedInRunsIff: asks that no two nodes are joined by more parallel edges than a channel holds, since otherwise a branch may have no finished run that reaches it; the statement about edges, `NothingDroppedIffAligned`, does not.
- RecordedRuns.HistoryIsFaithful: is about events all delivered and written; what is left when they are not is in `ExecutionHistory`.
- HookCalls.SilentFlowTimesOut: says which replies remain, not that the clock runs out; time enters only as a move that may come at any moment.
- Executions.OneTerminalEvent: says at most one terminal event until the driver removes itself; `EndIsReachable` shows that the end can always be reached, and that it is reached needs a fair scheduler, which is not modelled.
- PlanRun: the tasks of a step are spawned in one move, and tasks left running after a failure or a cancellation are not followed, although sibling tasks of a failed one do go on (crates/z8run-core/src/engine.rs:726).
- PlanRun: the executors of nodes are arbitrary: any outputs, any number, or a failure; node events are not recorded.
- PlanRun: a channel capacity of zero, with which the runtime's channel cannot be made, is excluded.
- Flows: names, descriptions, positions, timestamps and the pure reads `root_nodes`, `incoming_edges` and `max_parallelism`.
- Executions: the engine's broadcast channel is the event log itself; lost deliveries are in `ExecutionHistory`.
- RateLimits: floating-point rounding (reals are used), a window of zero, and the response headers built from an answer.
- ClientAddress: splitting and trimming the header values, and parsing addresses and networks, are parameters.
- HookRoutes: upper-casing a method is a parameter; SQL text, serialisation and storage errors other than a route collision are not part of this model.
- CanvasFlows: reading handles, labels and ports out of JSON, and resolving vault references; ids derived from canvas ids are any function of them.
- HookCalls: authorisation, body limits and payloads; `http_out`'s own output message; the process-wide responder map is always initialised.
- Templates: path lookup, rendering and parsing of JSON are arbitrary functions.
- PluginNode: call slots are either free or not; linear memory, fuel and epochs; a panic of the host.
- Cryptography, tokens, sessions, the egress policy, preview redaction, the provider nodes, the frontend, the CLI and the PostgreSQL copy of the storage are not part of this model.
