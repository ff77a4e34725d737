# Verified model of the schedulers, the pipeline executor and the codecs

This project models the parts of the repository in which the state is
intricate enough to be got wrong, and proves what they promise:

- the taskline queue and its worker (`tools/taskline/server`): one slice of
  tasks as a three-state queue machine, the goroutine that drains it, the stop
  protocol, and saving, loading and recovering it;
- the per-project workflow queue of the remote server (`remote/api`,
  `remote/store`): processors that exit and respawn under a lock, rate-limit
  backoff, halt on failure, eviction, and joining a running log;
- the task-slot scheduler (`remote/docker`): a counting semaphore with a sorted
  waiting list and a race between grants and cancels;
- the pipeline executor, its checkpoints and flows (`orchestrator`);
- the ring buffer, the project log, env files and the quoting of template
  values.

`dafny verify dfyconfig.toml` checks everything.

## How it is built

Objects that change step by step are classes with the program's fields and
loops; each method is proved against a function of the old state, and the
lemmas are about those functions. Goroutines are modelled as state machines:
an `Event` is one critical section or one channel operation, `Enabled` says
when it can happen, `Apply` what it does, and a run is any sequence of enabled
events, so a theorem about all runs is one about all interleavings. Clocks,
processes, conditions, the stop file, Docker and random draws are parameters or
nondeterministic events.

| file | models |
|---|---|
| `TaskQueueModel.dfy`, `TaskQueue.dfy` | the abstract queue; the slice, the name generator, and the proof that the slice refines the queue |
| `TaskState.dfy` | state files, loading, recovery |
| `TaskWorker.dfy` | handlers, worker and stop calls together |
| `ProjectLog.dfy` | line splitting |
| `WorkflowStore.dfy`, `WorkflowQueue.dfy` | the store; handlers and processors of one project together |
| `WorkflowOutcome.dfy` | what becomes of a workflow: how its run ends, cancel, retry, edit |
| `WorkflowOrder.dfy`, `WorkflowCancel.dfy`, `WorkflowClock.dfy` | in which order workflows are taken up; when a cancel is final; which clocks can strand a workflow |
| `LogJoin.dfy`, `RingBuffer.dfy` | a subscriber joining a running log; the log buffer |
| `TaskSlots.dfy`, `SlotProtocol.dfy` | the slot scheduler; all its callers together |
| `Pipeline.dfy`, `Executor.dfy` | validation; the meaning of a pipeline, and the executor that computes it |
| `LoopRun.dfy`, `PipelineRun.dfy` | what a loop executes, pass by pass; which way a run takes through a pipeline |
| `Checkpoint.dfy`, `CheckpointFile.dfy` | checkpoint matching; which pipelines share a file |
| `Resume.dfy`, `ResumeLoop.dfy` | resuming a pipeline; what loops do to it |
| `Flow.dfy`, `FlowRun.dfy`, `FlowTakeover.dfy` | flows; what they do segment by segment; segments that take over a checkpoint left by another |
| `EnvFile.dfy`, `ShellTemplate.dfy` | env files; placeholders and shell quoting |

## Where the code promises less than its comments

Each of these comes with the exact condition under which the code does what
its comments say.

- A step that fails with exit code 3 is indistinguishable from a graceful stop,
  so a flow marks its segment as completed and loses the remaining steps
  (orchestrator/engine/flow.go:266-271). `Flows.FailureWithCodeThreeLosesSteps`
  gives the run. A graceful stop after the last step of a segment leaves its
  checkpoint file, and when the same pipeline with matching variables comes
  again, the steps in it are skipped (`Flows.RepeatedPipelineIsSkipped`).
  `FlowTakeovers.ExactUnlessCutIffNoTakeover` says which flows are exact in every
  run in which no segment was cut, and none that can loop was rate-limited: those
  in which no segment finds in its file
  what an earlier one with the same path, matching variables and a step in
  common has left there.
- A rate limit inside a loop saves an empty list of completed steps
  (orchestrator/engine/executor.go:726), so that steps that have succeeded are
  executed again (`Resume.RateLimitInLoopForgets`).
  `ResumeLoops.AlwaysExactIffNoBusyLoop` says which pipelines this can happen to:
  those with a top-level step to execute and a top-level loop that can execute
  one.
- An attempt that failed after a goto does not resume where it left off
  (pipelines/PIPELINES.md:107): the checkpoint stores the next step, but nothing
  reads it, and a completed step is passed over without its goto, so that the
  steps jumped over are executed (`PipelineRuns.GotoIsForgotten`). It does exactly
  when no goto has jumped over a step
  (`PipelineRuns.ResumesWhereItFailedIffNothingJumped`).
- Not every pipeline gets a checkpoint file of its own
  (orchestrator/engine/checkpoint.go:18-19): two dashes may stand for a slash
  (`CheckpointFiles.CheckpointFilesCollide`). Without backslashes, and without two
  dashes in a row before the last component, two paths share a file exactly when
  their last two components agree (`CheckpointFiles.CheckpointFilesAreDistinct`).
- A checkpoint matches other variables when it stores an empty value
  (`Checkpoints.MatchMeansEqualityIffNoEmptyValue`).
- A clock that is set back can strand a workflow in backoff: exactly when its
  readings go from below some instant to it or above, back, and up to it again
  (`WorkflowClocks.StrandsIffClockSwingsTwice`). Within one process Go compares
  monotonic readings, which are not set back, so this concerns a `not_before`
  restored from the state file, which is compared by the wall clock.
- A cancel is final exactly when no processor has already picked the workflow
  (`WorkflowCancels.CancelIsFinalUnlessPicked`, with the run
  `WorkflowCancels.CancelledMayRun`).
- An env value survives being written and read exactly when it holds neither a
  double quote nor a backslash (`EnvFiles.RoundTrip`).
- A template that puts its own single quotes around a placeholder undoes the
  quoting (`ShellTemplates.QuotedPlaceholderIsExposed`); so do double quotes
  around it and a backslash before it, and nothing else does
  (`ShellTemplates.ValuesStayQuotedIffOutside`).
- A subscriber of a running log misses a chunk exactly when a send ran into its
  time limit (`LogJoin.NothingMissedAfterJoin`).

## Model

| member | source | states |
|---|---|---|
| `TaskQueueModel.SelectPartitions` | tools/taskline/server/queue.go:482-508 | the running-or-failed task and the pending sequence read off the slice make up the whole slice: no task is lost or doubled |
| `TaskQueueModel.PerformKeepsCoherent` | tools/taskline/server/queue.go:244-422 | every operation keeps: a failed task exists iff the queue is halted, a running task implies state running, at most one task is not pending, IDs and names are distinct, tasks are well formed |
| `TaskQueueModel.IdentifiesTask` | tools/taskline/server/queue.go:160-185 | in a coherent queue an ID or a name belongs to one task only |
| `TaskQueueModel.TakeOut` | tools/taskline/server/queue.go:362-379 | taking a pending task out by ID removes exactly that one, keeps the order of the others and frees its ID and name |
| `TaskQueueModel.RewriteKeeps` | tools/taskline/server/queue.go:380-422 | updating a pending task in place keeps the queue coherent when the new name is its own or nobody's |
| `TaskQueue.NameGenerator.GenerateID` | tools/taskline/server/names.go:45-58 | an ID never handed out before, recorded as used |
| `TaskQueue.NameGenerator.GenerateName` | tools/taskline/server/names.go:60-73 | a name neither generated nor reserved before, recorded as used |
| `TaskQueue.NameGenerator.ReserveName` | tools/taskline/server/names.go:75-86 | records the name and tells whether it was free |
| `TaskQueue.NameGenerator.MarkUsed` | tools/taskline/server/names.go:88-101 | records a non-empty ID and a non-empty name |
| `TaskQueue.FailRefines` | tools/taskline/server/queue.go:285-300 | assigning status and exit code in place is Fail on the abstract queue, and it halts |
| `TaskQueue.CompleteRefines` | tools/taskline/server/queue.go:268-283 | cutting the running task out of the slice is Complete; the queue goes idle iff nothing is pending |
| `TaskQueue.RetryRefines` | tools/taskline/server/queue.go:223-243 | reinserting the failed task before the first pending slice entry puts it at the head of the abstract pending sequence |
| `TaskQueue.AddRefines` | tools/taskline/server/queue.go:126-137 | inserting at the slice index of the k-th pending task inserts at min(position, pending length) |
| `TaskQueue.DeleteRefines` | tools/taskline/server/queue.go:359-379 | cutting the found task out of the slice is Delete; deleting the failed one makes the queue idle |
| `TaskQueue.UpdateRefines` | tools/taskline/server/queue.go:380-422 | assigning the given command and the given name, each unless blank, to the found task in place is Update, and the rest of the slice is as before |
| `TaskQueue.LookupAgrees` | tools/taskline/server/queue.go:173-185 | looking an identifier up in the slice, IDs before names, finds the task the abstract queue has under it |
| `TaskQueue.TaskQueue.AddTask` | tools/taskline/server/queue.go:96-144 | each error is reported exactly in its case, and then nothing changes; on success a fresh pending task with an unused ID and the given or an unused name stands before the pending task at its position, or last, and an idle queue runs |
| `TaskQueue.TaskQueue.StartNext` | tools/taskline/server/queue.go:245-266 | starts the first pending task exactly when the queue runs and no task does; otherwise nil, and nothing changes |
| `TaskQueue.TaskQueue.MarkComplete` | tools/taskline/server/queue.go:268-283 | takes the running task out, and the queue goes idle iff nothing is pending; or reports that none runs |
| `TaskQueue.TaskQueue.MarkFailed` | tools/taskline/server/queue.go:285-300 | fails the first running task of any slice and halts the queue; on a valid queue that is Fail with the code, or a report that none runs |
| `TaskQueue.TaskQueue.Retry` | tools/taskline/server/queue.go:302-319 | the failed task becomes pending again without its exit code, comes first, and the queue runs; or reports that there is none |
| `TaskQueue.TaskQueue.Skip` | tools/taskline/server/queue.go:320-333 | takes the failed task out, and the queue runs; or reports that there is none |
| `TaskQueue.TaskQueue.Resume` | tools/taskline/server/queue.go:335-357 | a halted or running queue is refused; otherwise it runs, or is idle when nothing is pending, and no task changes |
| `TaskQueue.TaskQueue.DeleteTask` | tools/taskline/server/queue.go:359-379 | cuts the one task the identifier names out of the slice, the queue going idle if it was the failed one; refuses a running task, and reports a missing one |
| `TaskQueue.TaskQueue.UpdateTask` | tools/taskline/server/queue.go:380-422 | on success the task the identifier names has the given command and name, each unless blank, and its other fields and all other tasks are as before; each error is reported exactly in its case, and then nothing changes |
| `TaskQueue.TaskQueue.FindLocked` | tools/taskline/server/queue.go:173-185 | the index of the task the identifier names, or -1 when there is none |
| `TaskQueue.TaskQueue.ListTasks` | tools/taskline/server/queue.go:479-508 | the running task first, the failed one last, the pending ones between them in their order; exactly the tasks of the slice |
| `TaskState.SavedQueueReadsBack` | tools/taskline/server/state.go:19-53 | every queue between calls passes the check made on loading, and reads back as it was saved |
| `TaskState.AcceptedFiles` | tools/taskline/server/state.go:28-48 | loading accepts exactly the files that saving writes for tasks with an ID and a command, and saving what was read gives the file again |
| `TaskState.RestoredIsGood` | tools/taskline/server/state.go:113-121 | marking the restored IDs and names as used restores the invariant under a new generator |
| `TaskState.LoadState` | tools/taskline/server/state.go:96-122 | missing, unreadable, corrupted and valid files, with what becomes of the file, the queue and the used names |
| `TaskState.RecoverRunningTask` | tools/taskline/server/main.go:84-106 | for any restored slice: the first running task becomes failed(-2), the queue halts and is saved, or nothing changes when none runs; a valid queue stays valid |
| `TaskState.Restart` | tools/taskline/server/registry.go:114-170 | save, load with a new generator and recover give back the queue with any running task failed(-2) |
| `TaskWorker.StepInv` | tools/taskline/server/worker.go:136-294 | every step of handlers, worker and stop calls keeps the protocol invariant; how a task ends is TaskEndsAsReported's |
| `TaskWorker.NoLostWakeUp` | tools/taskline/server/worker.go:134-171 | in every interleaving the worker is never parked on an empty channel while a task waits to be started, unless a Notify is still to come |
| `TaskWorker.IdleWorkerStartsHead` | tools/taskline/server/worker.go:150-171 | with every Notify delivered and no shutdown, an idle worker starts the head of the queue within three steps of its own |
| `TaskWorker.FinishMarksItsTask` | tools/taskline/server/worker.go:268-294 | finishTask always finds exactly its own task running: removed on 0, else failed with the code and the queue halted |
| `TaskWorker.MarkedAsReported` | tools/taskline/server/worker.go:242-276 | in every run the code a task is marked with is -1 if a stop found its process before its end was collected, else what the process reported, or -4 when waiting for it failed |
| `TaskWorker.TaskEndsAsReported` | tools/taskline/server/worker.go:230-294 | in every run a task leaves the queue iff its process reported 0 and was not stopped in time; otherwise it is the failed task, with the code -1, -4, -3 or the one reported, of a halted queue |
| `TaskWorker.SpawnedOrFailed` | tools/taskline/server/worker.go:230-248 | a task that was taken gets a process of its own, or fails with -3 when it cannot be started |
| `TaskWorker.ShutdownStops` | tools/taskline/server/worker.go:146-176 | after Shutdown the worker takes at most the one task it was about to take, and then stops for good |
| `TaskWorker.StopReturnsAfterFailure` | tools/taskline/server/worker.go:173-222 | a Stop or ForceKill that has returned a task did so after that task was marked failed with -1, whatever its process reported |
| `TaskWorker.HandlersKeepRunning` | tools/taskline/server/handler.go:183-356 | no handler call changes which task is running |
| `ProjectLogs.JoinAfterSplit` | tools/taskline/server/project_log.go:57-65 | the emitted lines and the buffered rest make up the bytes written |
| `ProjectLogs.SplitAfterJoin` | tools/taskline/server/project_log.go:57-65 | there is only one way to cut a text at its newlines |
| `ProjectLogs.SplitResumes` | tools/taskline/server/project_log.go:52-67 | splitting may stop after any byte and go on with the buffered rest |
| `ProjectLogs.ProjectLog.Write` | tools/taskline/server/project_log.go:46-67 | the file holds the complete lines of everything written; new lines carry the current task's name |
| `ProjectLogs.ProjectLog.Close` | tools/taskline/server/project_log.go:112-122 | the file then holds the newline split of all bytes, a non-empty last partial line flushed once |
| `ProjectLogs.ChunkingDoesNotMatter` | tools/taskline/server/project_log.go:52-67 | two ways of cutting the same output into writes give the same lines and the same rest |
| `WorkflowStores.WorkflowStore.Add` | remote/store/workflow.go:86-92 | index and map still agree exactly iff the ID is new; the workflow comes last in its project |
| `WorkflowStores.WorkflowStore.Update` | remote/store/workflow.go:101-112 | changes the one workflow of that ID and no order |
| `WorkflowStores.WorkflowStore.Remove` | remote/store/workflow.go:114-130 | removes the one workflow of that ID from map and index |
| `WorkflowStores.WorkflowStore.NextQueued` | remote/store/workflow.go:225-242 | the oldest queued workflow whose backoff is over, or none when there is none |
| `WorkflowStores.WorkflowStore.Has` | remote/store/workflow.go:244-289 | HasRunning and HasFailed |
| `WorkflowStores.WorkflowStore.HasWaiting` | remote/store/workflow.go:257-273 | whether some queued workflow is in backoff |
| `WorkflowStores.WorkflowStore.Evict` | remote/store/workflow.go:326-352 | the project becomes its evicted list, other projects stay, index and map agree |
| `WorkflowStores.EvictionDropsOldestTerminal` | remote/store/workflow.go:326-352 | eviction removes exactly the terminal workflows of a shortest prefix: a subsequence, non-terminal ones kept, oldest terminal ones first, at most 20 left or no terminal one |
| `WorkflowQueue.StepKeeps` | remote/api/workflow_queue.go:78-306 | every step of handlers, Enqueue calls and processors keeps the invariants; what becomes of a workflow is WorkflowOutcomes's |
| `WorkflowOutcomes.EndIsCollected` | remote/api/workflow_queue.go:207-251 | the processor takes the outcome of the container run it waits for, and whether a cancel of it was requested by then |
| `WorkflowOutcomes.RunEndsAs` | remote/api/workflow_queue.go:236-306 | an ended run makes its workflow failed iff it never started, or was not cancelled and its code is neither 0 nor 2; cancelled with its code iff it started and was cancelled; queued for 1800 seconds later on 2, completed on 0; no other workflow changes, and the queue then halts iff one is failed |
| `WorkflowOutcomes.CancelOfRunningEndsIt` | remote/api/workflow_queue.go:318-338 | a cancel of the workflow being executed is kept whatever happens until its run ends, and then it is cancelled with its exit code |
| `WorkflowOutcomes.RetryQueues` | remote/api/workflow_handler.go:348-403 | a retry makes the failed workflow queued as if it had never run, eligible at once, changes no other and is followed by an Enqueue |
| `WorkflowOutcomes.CancelTakesOut` | remote/api/workflow_handler.go:265-311 | a cancel makes a queued workflow cancelled and never eligible again, marks a failed one for removal, and changes no other |
| `WorkflowOutcomes.RemovalTakesOut` | remote/api/workflow_handler.go:313-321 | removing the failed workflow takes out that one and no other, and is followed by an Enqueue |
| `WorkflowOutcomes.EditChanges` | remote/api/workflow_handler.go:212-246 | an edit changes pipeline and variables of a queued workflow and nothing else |
| `WorkflowOutcomes.StartRuns` | remote/api/workflow_queue.go:170-182 | the processor marks the workflow it picked as running from now on, and no other |
| `WorkflowOutcomes.WaitingProcessorStarts` | remote/api/workflow_queue.go:103-166 | in every reachable state without a failed workflow a waiting processor starts the oldest eligible workflow within five steps of its own |
| `WorkflowClocks.NeverStranded` | remote/api/workflow_queue.go:78-148 | while the clock does not go back, a project with a queued workflow has an active processor or a caller still due to call Enqueue |
| `WorkflowClocks.StrandsIffClockSwingsTwice` | remote/api/workflow_queue.go:104-148 | given the list of its readings, a clock can strand a workflow iff the readings go from below some instant to it or above, back below, and up to it again |
| `WorkflowOrders.AtMostOneRuns` | remote/api/workflow_queue.go:45-49 | at most one processor and one running workflow in every reachable state |
| `WorkflowOrders.EntersRunningOnlyWhenClear` | remote/api/workflow_queue.go:104-182 | a workflow enters running exactly when a processor starts the one it picked, and then no failed and no other running one is in the store |
| `WorkflowOrders.ProcessedInCreationOrder` | remote/api/workflow_queue.go:45-49 | when a workflow enters running, a processor had picked it at a moment when no older workflow of the project was eligible, and has done nothing else since |
| `WorkflowClocks.ClockSetBackStrands` | remote/api/workflow_queue.go:118-147 | the readings 0, 10, 0, 10 can strand a workflow in backoff; 0, 10, 0 cannot |
| `WorkflowCancels.CancelIsFinalUnlessPicked` | remote/api/workflow_queue.go:176-181 | in every reachable state a cancelled workflow is never anything else but cancelled or gone, whatever happens next, iff it is not the one a processor has picked and is about to start |
| `WorkflowCancels.CancelledMayRun` | remote/api/workflow_queue.go:176-181 | a run in which a cancelled workflow is started |
| `LogJoin.StepInv` | remote/api/workflow_queue.go:398-423 | every step of the writer and the subscriber, timed-out sends included, keeps: what was received, queued and is in flight is the log from one chunk on without the dropped chunks |
| `LogJoin.JoinMissesNothing` | remote/api/workflow_handler.go:563-616 | when no send timed out, the client has the whole log before "finished", with at most the one chunk in flight at the join repeated |
| `LogJoin.NothingMissedAfterJoin` | remote/api/workflow_handler.go:563-616 | with a full buffer too: the snapshot is the end of the log so far, every later chunk arrives once and in order unless its send timed out, and all arrive iff none did |
| `RingBuffers.RingBuffer.Write` | remote/store/ringbuffer.go:24-65 | keeps the buffer equal to the last bytes of everything written, for writes of any size |
| `RingBuffers.RingBuffer.String` | remote/store/ringbuffer.go:67-79 | exactly the last min(total, maxSize) bytes written |
| `RingBuffers.RingBuffer.Wrapped` | remote/store/ringbuffer.go:81-87 | holds iff more than maxSize bytes were written |
| `TaskSlots.DispatchExact` | remote/docker/container.go:175-188 | a dispatch grants the first uncancelled waiters, as many as there are slots, and leaves no slot free while one is listed |
| `TaskSlots.InsertKeepsOrder` | remote/docker/container.go:190-199 | inserting keeps the list in (createdAt, arrival) order |
| `TaskSlots.ContainerManager.TryDispatch` | remote/docker/container.go:175-188 | the loop over the list performs the dispatch; popped items are dispatched unless cancelled |
| `TaskSlots.ContainerManager.Search` | remote/docker/container.go:193-195 | the binary search finds the insertion position |
| `TaskSlots.ContainerManager.InsertPendingSorted` | remote/docker/container.go:190-199 | inserts the item at its place in the order |
| `TaskSlots.ContainerManager.Enter` | remote/docker/container.go:138-147 | the first critical section of acquireSlot: insert, then dispatch |
| `TaskSlots.ContainerManager.Leave` | remote/docker/container.go:152-163 | the second one: a granted slot is returned, else the entry is marked cancelled |
| `TaskSlots.ContainerManager.ReleaseSlot` | remote/docker/container.go:167-173 | returns a slot and dispatches |
| `TaskSlots.RunOneShotStreaming` | remote/docker/container.go:377-447 | every failing path returns the slot once; success leaves it to the stream |
| `TaskSlots.OneShotStream.Close` | remote/docker/container.go:470-492 | returns the slot at the first call only |
| `SlotProtocol.StepInv` | remote/docker/container.go:138-199 | every critical section of every caller keeps the invariant |
| `SlotProtocol.SlotsConserved` | remote/docker/container.go:138-199 | free slots plus grants not returned equal the limit, no slot is free while a caller waits, the list is sorted, and a caller has returned its slot exactly once or not at all, as its phase says |
| `SlotProtocol.GrantsGoToTheLeast` | remote/docker/container.go:175-199 | every grant goes to uncancelled callers with an earlier createdAt, or the same and an earlier arrival, than all those left waiting |
| `SlotProtocol.BoundedWait` | remote/docker/container.go:168-199 | a waiter with k uncancelled ones ahead is granted by the (k+1)-th slot return |
| `Pipelines.ValidatePipeline` | orchestrator/core/pipeline.go:151-178 | accepts exactly the good pipelines |
| `Pipelines.ValidateLoop` | orchestrator/core/pipeline.go:267-305 | accepts exactly the good loops, nested ones included |
| `Pipelines.ValidateStep` | orchestrator/core/pipeline.go:180-215 | accepts exactly the good steps |
| `Pipelines.ValidateCondition` | orchestrator/core/pipeline.go:217-265 | accepts exactly the conditions with one mode, regexes that compile and a known target |
| `Pipelines.FlattenElements` | orchestrator/core/pipeline.go:326-336 | appends the step names of the tree in order |
| `Pipelines.TopLevel` | orchestrator/core/pipeline.go:307-317 | the names of the top-level steps in order |
| `Pipelines.GotoLands` | orchestrator/core/pipeline.go:252-263 | a goto of a valid pipeline lands on the one top-level step of that name |
| `Executors.Executor.ExecuteLoop` | orchestrator/engine/executor.go:677-816 | always terminates and computes the recursive meaning of the loop, which LoopRuns describes |
| `Executors.Executor.ExecuteBody` | orchestrator/engine/executor.go:685-768 | one iteration, with its index, last output and break flag, computes the recursive meaning of the element list |
| `Executors.Executor.Run` | orchestrator/engine/executor.go:237-403 | computes the meaning of the pipeline, checkpoints included, for any number of element visits; PipelineRuns says which way it takes |
| `Executors.Executor.ExecuteTopLevelStep` | orchestrator/engine/executor.go:335-394 | computes what a top-level step does: failure, rate limit, success, graceful stop, gate and goto, as PipelineRuns.HopTaken and EndTaken spell out |
| `Executors.DecisionsOfValidPipelines` | orchestrator/engine/executor.go:549-586 | in a valid pipeline only a condition that could not be decided is an error, only a closed gate stops the pipeline, a goto that holds goes to the one top-level step it names, and everything else goes on to the next element |
| `Executors.Executor.FindElementIndex` | orchestrator/engine/executor.go:588-596 | the first top-level step of that name, or -1 |
| `Executors.LoopBound` | orchestrator/engine/executor.go:681-815 | a loop executes at most its iterations times the cost of its body, nested loops included |
| `Executors.BoundIsReached` | orchestrator/engine/executor.go:681-815 | when everything succeeds it executes exactly that many steps |
| `LoopRuns.LoopByPass` | orchestrator/engine/executor.go:677-816 | a loop repeats its body while it has iterations left and its condition, asked with the output of the pass, is answered with true; it ends at the first answer that is not, or with an iteration that is left early |
| `LoopRuns.PassByElement` | orchestrator/engine/executor.go:690-768 | a pass takes the elements in order: a step is run once, must succeed, not be stopped, and its condition must hold; the first that does not ends the pass, with code and checkpoint |
| `LoopRuns.FalseStepConditionEndsLoop` | orchestrator/engine/executor.go:743-773 | in whichever iteration, a step condition that is false ends the loop with 0, and nothing of the body is executed after the step |
| `LoopRuns.LoopRepeatsWhileTrue` | orchestrator/engine/executor.go:681-816 | when the steps succeed, nobody stops and the conditions inside the body hold: the loop executes its unrolled body min(max_iterations, 1 + the leading answers true) times, each question getting the output of the last step of the body |
| `Executors.FuelIsEnough` | orchestrator/engine/executor.go:277-403 | a run that ends does not depend on the number of visits allowed |
| `Executors.ForwardPipelinesTerminate` | orchestrator/engine/executor.go:277-403 | a pipeline whose gotos go forward ends after at most one visit of each element, whatever the world answers |
| `PipelineRuns.LeadsOrHalts` | orchestrator/engine/executor.go:335-394 | a step of a valid pipeline either ends the run with one code or leads to one element: the step its goto names when the condition holds, else the next |
| `PipelineRuns.HopTaken` | orchestrator/engine/executor.go:277-394 | after an executed element a run continues as one from where the element leads, with the checkpoint that lists it |
| `PipelineRuns.EndTaken` | orchestrator/engine/executor.go:277-403 | a failure, rate limit, stop, undecided condition or closed gate ends the run with its code and leaves its checkpoint; at the end the checkpoint is removed |
| `PipelineRuns.RunByElement` | orchestrator/engine/executor.go:237-403 | every run of a valid pipeline that ends is such a path, each element the first active one from where the one before led |
| `PipelineRuns.ForwardRun` | orchestrator/engine/executor.go:237-403 | a run of a valid pipeline with forward gotos, resumed or not, executes in order, of the top-level steps, exactly the active ones it comes to that no goto jumps over |
| `PipelineRuns.ResumesWhereItFailedIffNothingJumped` | orchestrator/engine/checkpoint.go:178-190 | after a failed attempt the next one takes up the pipeline at the failed step iff no goto has jumped over a step |
| `PipelineRuns.GotoIsForgotten` | orchestrator/engine/executor.go:309-315 | a run whose second attempt executes the step that the first one had jumped over |
| `Executors.Executor.LoadCheckpoint` | orchestrator/engine/checkpoint.go:203-233 | the stored checkpoint iff pipeline and variables match |
| `Checkpoints.CompareVars` | orchestrator/engine/checkpoint.go:222-230 | the comparison loop decides the match, in which a missing key reads as empty |
| `Checkpoints.IsStepCompleted` | orchestrator/engine/checkpoint.go:322-330 | membership in the completed list |
| `Checkpoints.MatchIsEquality` | orchestrator/engine/checkpoint.go:222-230 | variables are equal iff they match and no key stored empty is missing |
| `Checkpoints.MatchMeansEqualityIffNoEmptyValue` | orchestrator/engine/checkpoint.go:222-230 | a stored checkpoint is matched by equal variables only iff it stores no empty value |
| `CheckpointFiles.IdentityIs` | orchestrator/engine/checkpoint.go:23-33 | a pipeline file is identified by the name of its directory and its own, with or without an extension |
| `CheckpointFiles.CheckpointFilesAreDistinct` | orchestrator/engine/checkpoint.go:17-38 | two paths without backslashes and without two dashes in a row before the last component share a file iff their last two components agree |
| `CheckpointFiles.CheckpointFilesCollide` | orchestrator/engine/checkpoint.go:27-37 | each of these provisos is needed: x-/y and x/-y, x--y and x/y, a backslash and two dashes share a file |
| `Resume.Attempt` | orchestrator/engine/executor.go:247-403 | one attempt skips exactly the steps that succeeded before and goes on in order, and leaves a checkpoint of exactly what has succeeded, or none after exit 0; with loops, also the one it found, or an empty one after a rate limit |
| `Resume.ResumeIsExact` | orchestrator/engine/executor.go:247-403 | when no top-level loop can execute a step: over any number of failed, rate-limited or stopped attempts the successes are a prefix of the non-skipped steps, each once and in order, and all of them after exit 0 |
| `Resume.ResumeIsExactIffNothingForgotten` | orchestrator/engine/executor.go:247-403 | for one run with loops anywhere, ending in 0: each non-skipped top-level step succeeded once and in order iff no attempt left an empty checkpoint after one had succeeded |
| `ResumeLoops.AlwaysExactIffNoBusyLoop` | orchestrator/engine/executor.go:677-728 | each non-skipped top-level step succeeds once and in order in every run that ends in 0, iff the pipeline has none or no top-level loop that can execute a step |
| `Resume.RateLimitInLoopForgets` | orchestrator/engine/executor.go:723-728 | a run in which a step before a rate-limited loop succeeds twice |
| `Flows.FlowRunner.ExecuteFlow` | orchestrator/engine/flow.go:241-307 | computes the meaning of the flow, flow checkpoints included |
| `Flows.FlowRunner.LoadFlowCheckpoint` | orchestrator/engine/checkpoint.go:283-315 | the number of completed segments when all segments match, else 0 |
| `Flows.FlowRunner.ExecuteSinglePipeline` | orchestrator/engine/flow.go:408-422 | runs one segment with a new executor on the shared checkpoint files |
| `FlowRuns.FlowBySegment` | orchestrator/engine/flow.go:260-306 | a flow runs its segments in order, each after the one before has ended with 0; the first that does not ends it with its code, and the flow's checkpoint counts the completed ones, a stopped one among them |
| `FlowRuns.FlowBegins` | orchestrator/engine/flow.go:244-254 | a flow begins after the segments its checkpoint counts when that is one of the same pipelines with matching variables, and at the first otherwise |
| `Flows.RestartIsFresh` | orchestrator/engine/flow.go:255-258 | a restarted flow begins at its first segment and uses no stored checkpoint, whatever the directory holds |
| `Flows.RestartedFlowIsExact` | orchestrator/engine/flow.go:241-306 | after a restart every non-skipped step of every segment succeeds exactly once, in order, under the proviso of FlowResumeIsExact |
| `Flows.FlowResumeIsExact` | orchestrator/engine/flow.go:242-307 | over any number of attempts ending in 0 in which no segment run returns 3 and none with a busy loop returns 2, every non-skipped step of every segment succeeds exactly once, in order |
| `Flows.FlowIsExactIffNothingCut` | orchestrator/engine/flow.go:263-279 | when no segment takes over the leftover of another and no segment run with a busy loop returned 2, a flow that ends in 0 is exact iff no segment run returned 3 with steps still to do |
| `Flows.OnlyBusyLoopsAreLimited` | orchestrator/engine/executor.go:723-728 | in a flow whose loops can execute no step no run counts as limited, so that the proviso about busy loops is void |
| `FlowTakeovers.ExactUnlessCutIffNoTakeover` | orchestrator/engine/flow.go:263-279 | in every run without a rate limit in a busy loop a flow that ends in 0 is exact iff it was not cut, iff no segment finds the checkpoint that an earlier one, with the same path, matching variables and a step in common, left in its file: segments between them use another file, or want nothing and can be stopped in a loop |
| `Flows.FailureWithCodeThreeLosesSteps` | orchestrator/engine/flow.go:265-272 | a step failing with exit code 3 makes a flow end in 0 with nothing done |
| `Flows.RepeatedPipelineIsSkipped` | orchestrator/engine/flow.go:265-272 | a stop after the last step makes a repeated pipeline be skipped |
| `EnvFiles.Parse` | remote/env/parser.go:46-68 | the variables and comments of the lines, in order |
| `EnvFiles.Write` | remote/env/writer.go:19-35 | the comments, then one line per variable |
| `EnvFiles.RereadIsValue` | remote/env/writer.go:48-57 | quoting and unquoting give the value back iff it holds neither a double quote nor a backslash |
| `EnvFiles.EntryReadsBack` | remote/env/parser.go:56-62 | a written variable is one line that parses to its key and its reread value |
| `EnvFiles.RoundTrip` | remote/env/parser.go:37-79 | Parse after Write gives the same keys in order and the same comments, and a value unchanged iff it holds neither a double quote nor a backslash |
| `EnvFiles.AssignmentParses` | remote/env/parser.go:48-79 | a line written by hand, with blanks around key and value: one pair of double or single quotes around the value is removed, any other value is taken as it stands |
| `EnvFiles.OtherLinesParse` | remote/env/parser.go:48-59 | a comment is kept without the blanks around it; any other line without an equals sign adds nothing |
| `ShellTemplates.PiecesJoin` | orchestrator/core/variables.go:11-11 | cutting a template at its leftmost placeholders loses nothing |
| `ShellTemplates.FindPlaceholders` | orchestrator/core/variables.go:49-62 | the distinct keys of the placeholders, in the order of their first occurrence |
| `ShellTemplates.QuotedReadsBack` | orchestrator/core/variables.go:94-99 | quote removal undoes shellQuote, with every character of the value quoted |
| `ShellTemplates.CommandMeansSubstitution` | orchestrator/core/variables.go:76-92 | for a template without quotes and backslashes, quote removal on the resolved command is the plain substitution, every value in quoted position |
| `ShellTemplates.ValuesStayQuotedIffOutside` | orchestrator/core/variables.go:76-92 | for a template whose own quotes are complete: for all values of the known keys, quote removal on the resolved command gives its text with every value quoted, iff no known placeholder stands inside its single or double quotes or right after one of its backslashes |
| `ShellTemplates.QuotedPlaceholderIsExposed` | orchestrator/core/variables.go:76-92 | a placeholder inside the template's own single quotes leaves its value unquoted |

## Left out

- HTTP, WebSocket, Docker, git, mail, the LLM client and the dashboard: their
  outcomes are events or oracle answers.
- JSON and YAML: codecs are taken to be lossless and file writes atomic and
  successful; concurrent SaveState calls are not ordered.
- TaskQueue.NameGenerator.GenerateID: randomness is a sequence of draws with an unused one in it; the endless loop once every name is taken is not modelled.
- TaskQueue.NameGenerator.GenerateName: as for IDs.
- `Queue.RemoveTask`, `Snapshot`, `PendingCount` and the other read-only
  accessors of the taskline queue, `tailLines`, and the SSE subscribers of the
  project log.
- Several taskline projects sharing one name generator: used names only grow,
  which keeps every queue's invariant.
- TaskWorker.NoLostWakeUp: an Add brings an ID not in the queue and a non-empty name, which AddTask guarantees; persisting and notifying by mail are not steps of the model.
- WorkflowStores.WorkflowStore.Update: workflows are values in a map, so a pointer kept by a caller across an update is not modelled.
- The sorted listings of the workflow store, and prefix matching of short workflow IDs.
- WorkflowClocks.NeverStranded: one project at a time, since projects share only the lock; the wake-up channel is subsumed by the one-second poll; server shutdown is not a step.
- WorkflowCancels.CancelIsFinalUnlessPicked: a new workflow's UUID is taken to be one never given out before.
- Workflow state files: creation order is lost in them, so a restarted store
  may hold its workflows in any order.
- LogJoin.JoinMissesNothing: for a log no larger than the buffer, the longer ones being NothingMissedAfterJoin's; a requeue, which replaces buffer and subscribers, is not a step, and there is one subscriber at a time.
- Chat slots, whose accounting has a known double release, and the return
  counts of `limitWriter` and `limitedCapture`.
- TaskSlots.ContainerManager.Enter: blocking on the ready channel is the protocol's Granted phase.
- Executors.Executor.Run: takes a bound on element visits, because a backward goto may run forever; dry runs, the log task, timing and printed output are left out, and the step found by the sub-pipeline checkpoint scan is an input.
- PipelineRuns.ForwardRun: backward gotos are RunByElement's, and a step sought because of a sub-pipeline's checkpoint too.
- LoopRuns.LoopRepeatsWhileTrue: bodies in which a condition turns false or a step fails are LoopByPass's and PassByElement's.
- Conditions: which inputs match is an oracle; reading the condition file and
  evaluating it is one question to it.
- Substituting variables into the other fields of a pipeline, and the list of
  undefined variables.
- Resume.ResumeIsExact: for runs without `--restart`, without a matching sub-pipeline checkpoint and without top-level conditions, since those of completed steps are not evaluated again: PipelineRuns.ResumesWhereItFailedIffNothingJumped.
- Resume.ResumeIsExactIffNothingForgotten: as ResumeIsExact, and about top-level steps: inside loops progress is not saved.
- ResumeLoops.AlwaysExactIffNoBusyLoop: for the same runs.
- Flows.FlowResumeIsExact: segments are without top-level conditions, taken as already parsed, substituted and validated, and the same at every attempt; synchronising with git between segments has no effect on the model. What a rate limit in a busy loop does to a segment is ResumeLoops.AlwaysExactIffNoBusyLoop's.
- FlowTakeovers.ExactUnlessCutIffNoTakeover: for the same segments and runs.
- EnvFiles.RoundTrip: for printable ASCII values; the scanner's line limit and non-ASCII white space are not modelled, nor are file permissions.
- ShellTemplates.ValuesStayQuotedIffOutside: a substitution in braces, parentheses or backquotes inside double quotes has a quoting of its own and is not covered; nor is what the shell does next with the text inside backquotes, comments and here-documents.
