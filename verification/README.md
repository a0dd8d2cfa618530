# A verified model of the HyperMoE runtime

HyperMoE runs mixture-of-experts models whose experts do not fit in device
memory. Experts live in a checksummed store, a scheduler moves them between
storage, host memory and device memory while requests coalesce and change
priority, a router sends each token to a few experts, and the runtime runs the
experts on gathered rows and adds the weighted results back. This project
models that machinery in Dafny and proves what it keeps, over every run and
every input. `dafny verify dfyconfig.toml` checks all of it.

## How it is built

| files | part of the program |
|---|---|
| `ExpertStates`, `SchedulerModel`, `SchedulerInvariant`, `SchedulerTheorems`, `SchedulerPrefetch`, `SchedulerBound`, `SchedulerRuns`, `SchedulerCalls`, `Scheduler` | the asynchronous scheduler and the lifecycle table it drives |
| `TransferManager` | the transfer engine under it |
| `Matrices`, `Routing`, `Grouping`, `Combination`, `Attention` | routing, grouped execution, combination, attention |
| `Bytes`, `Crc32`, `ExpertIndex`, `ImageLayout`, `ExpertStore`, `Shape`, `Packing` | file format, store, packing and viewing |
| `MemoryPool` | the device memory pool |
| `TransitionDatabase`, `CachePolicies`, `Sampling` | online statistics, eviction, token sampling |
| `Formulas`, `TraceFormulas` | what the numeric parts and the traces come to, written out |

The two concurrent parts are transition systems. A step is one section that the
source runs under a lock, or one stretch of a worker between two accesses to
shared data; a run is any interleaving of client and worker steps, for any
number of workers. The classes hold the fields the source updates, and each
locked section is a method proved equal to its step. Everything else follows
the source's own form: loops with invariants, arrays where it writes in place,
classes where its methods update fields. A class with a field `log` carries the
full history of its calls for the proofs only.

Most methods are proved equal to a function. So that those functions can be
trusted without being read, `SchedulerCalls`, `ImageLayout`, `Formulas` and
`TraceFormulas` say in fields, offsets and sums what they come to: a sum is
given by its list of terms, a quotient is multiplied out, and an outcome has its
condition on the state before.

Reals stand for floating-point numbers, and `exp` is any positive, strictly
increasing function. Machine bounds of 64 bits are written out wherever the
source guards them; its sequence numbers, clocks and generations are unbounded.
A thrown exception is a refused step, a `Result` or an `Option`.

## What the code does not keep

Some promises fail, or hold only under a condition. The code is modelled as it
is; the condition is proved.

- The limit on prefetched bytes: `BoundExactly` says on the state before a step
  whether the step keeps it, `BoundKept` that three guards shut out every
  failure, and `CommitAccounting` and `ScheduleAccounting` give the bytes. Each
  guard has a run that breaks the limit: a prefetch of an expert already in
  place (src/scheduler/Scheduler.cpp:97, `DirectInsertBreaksBound`), a plain
  commit that replaces a prefetched payload (`PlainCommitBreaksBound`), and a
  trim that aborts (`AbortBreaksBound`). docs/architecture.md:525-531 calls the
  speculative set bounded without that condition.
- An expert in use without a pending task stays so until its release
  (`InUseUntilRelease`). With a pending task it can be marked failed by its own
  worker (src/scheduler/Scheduler.cpp:411-415, 441-444, 453-456): after its
  transfer a client takes it into use, the trim aborts on another expert, and
  the failure is charged to it. `SecureExactly` gives the condition before the
  step, `ExpertInUseCanBeFailed` is the run.
- A request for NVMe always fails, evictions included, because the transfer
  engine refuses that destination (src/memory/TransferManager.cpp:81-83);
  src/scheduler/Scheduler.cpp:391-392 is never reached (`NvmeNeverSucceeds`).
- A second shutdown call returns at once while the first still waits
  (src/scheduler/Scheduler.cpp:259; the same in
  src/memory/TransferManager.cpp:116-118). The two lemmas named
  `ShutdownKeepsPromiseExactly` say which calls leave nothing behind,
  `SecondShutdownMayReturnEarly` that others occur.
- Expiry stops where the lifecycle table refuses, leaving the payload of that
  expert dropped and its key still listed as prefetched
  (src/scheduler/Scheduler.cpp:206-209). `ExpiryExactly` says when, and
  `ExpiryCanStop` is a run to it.
- Packing an INT8 source without re-encoding fails after the files are written,
  since the quantization parameters are not carried over
  (tools/model_convert/ExpertPacker.cpp:196-199, 454): `PackExperts` succeeds,
  and `MappedViewsShowSource` gives views, exactly without INT8 experts.
- Loading a version-2 index without projections and saving it writes version 1
  (`SaveUndoesLoad`).

## Model

| member | source | states |
|---|---|---|
| `ExpertStates.KeyRoundTrip` | src/scheduler/Scheduler.cpp:204-208 | unpacking a stored key gives back the layer and expert it was packed from, and packing again gives the key, so sweeps over keys reach the very expert meant |
| `ExpertStates.ResidencyStateMachine.RegisterExpert` | src/scheduler/ExpertState.cpp:20-31 | registers an unknown expert as ready where it lies; refuses a known one and changes nothing |
| `ExpertStates.ResidencyStateMachine.Transition` | src/scheduler/ExpertState.cpp:37-157 | every transition: accepted exactly when its guard holds, otherwise the table is unchanged |
| `ExpertStates.MovesAre` | src/scheduler/ExpertState.cpp:37-157 | from which states each transition is allowed and to which it leads; only an arrival and a reconciliation move an expert, only an acquisition counts as a use |
| `SchedulerInvariant.BeginTransferKeeps` | src/scheduler/Scheduler.cpp:343-345 | in every state of the invariant the loading guard accepts, so no worker ever throws outside its try block, and the invariant survives |
| `SchedulerInvariant.StepKeeps` | src/scheduler/Scheduler.cpp:55-483 | each of the eighteen client and worker sections, in any order, keeps the invariant that ties pending table, heap, task flags, workers and lifecycle table together |
| `SchedulerInvariant.RunKeeps` | src/scheduler/Scheduler.cpp:55-483 | hence every state of every run satisfies it |
| `SchedulerTheorems.GuardsNeverRefuse` | src/scheduler/Scheduler.cpp:343-378 | on every interleaving a worker about to load finds its expert Queued and after the transfer Loading, or Evicting both times for an eviction; neither guard ever refuses |
| `SchedulerTheorems.WaitingIsLive` | src/scheduler/Scheduler.cpp:316-325 | the entries the pop loop would accept are exactly one per pending unstarted task, carrying its present priority, score and generation |
| `SchedulerTheorems.PopTakesFirst` | src/scheduler/Scheduler.cpp:312-330 | whatever stale entries lie in the heap, a pop removes the maximum of an updatable priority queue by priority, score and sequence, and takes nothing only if that queue is empty |
| `SchedulerTheorems.ScheduleUpdatesQueue` | src/scheduler/Scheduler.cpp:98-146 | a scheduling call inserts its task, raises the task it joins, or leaves the abstract queue alone |
| `SchedulerTheorems.OtherStepsKeepQueue` | src/scheduler/Scheduler.cpp:180-271 | no other section touches the abstract queue: the lazily pruned heap refines it |
| `SchedulerTheorems.HistoryOnlyGrows` | src/scheduler/Scheduler.cpp:453-483 | attached callbacks stay in place, a completed task takes no more, an answered task never changes again |
| `SchedulerTheorems.CallbackIsAttached` | src/scheduler/Scheduler.cpp:101-146 | the callback of a call that joins or opens a task becomes the last callback of exactly that task, which is not completed; any other call attaches it to no task |
| `SchedulerTheorems.ExactlyOnce` | src/scheduler/Scheduler.cpp:453-483 | in every reachable state a task has at most one answer, its callbacks have run as a prefix in order of attachment, all of them once it is answered; while pending it is its expert's only task |
| `SchedulerTheorems.ShutdownLeavesNothing` | src/scheduler/Scheduler.cpp:256-271 | once all workers have exited no task is pending and every task ever accepted was answered once with all its callbacks run |
| `SchedulerTheorems.WorkersWindDown` | src/scheduler/Scheduler.cpp:309-330 | during shutdown every worker section decreases a well-founded measure, so no schedule of the workers runs forever |
| `SchedulerTheorems.WorkerCanStep` | src/scheduler/Scheduler.cpp:309-450 | in every state of the invariant a worker that has not exited, and is not idle over an empty queue before shutdown, has an enabled section |
| `SchedulerTheorems.WorkerStepsExactly` | src/scheduler/Scheduler.cpp:309-450 | a worker has an enabled section if and only if it has not exited and is busy, or something is queued, or shutdown has begun |
| `SchedulerTheorems.IdleTakesFirst` | src/scheduler/Scheduler.cpp:309-330 | while a task waits that no worker has started, an idle worker can pop, and whenever one pops it takes the first task by priority, score and sequence |
| `SchedulerTheorems.ShutdownFinishes` | src/scheduler/Scheduler.cpp:256-271 | from every reachable state in shutdown a state with all workers exited and nothing pending is reached |
| `SchedulerTheorems.SecondShutdownMayReturnEarly` | src/scheduler/Scheduler.cpp:256-260 | a reachable state in which a second shutdown call returns at once although a task is pending |
| `SchedulerShutdown.ShutdownKeepsPromiseExactly` | src/scheduler/Scheduler.cpp:256-271 | from every reachable state a shutdown call can return, and all its returns leave no task pending if and only if it is the call that set the flag, or nothing was pending |
| `SchedulerShutdown.FirstReturnLeavesNothing` | src/scheduler/Scheduler.cpp:265-271 | the call that set the flag returns, on every run, with nothing pending, an empty heap, and every task answered once with all its callbacks run |
| `SchedulerTheorems.InUseIsKept` | src/scheduler/ExpertState.cpp:96-157 | an expert in use keeps state, tier and count through a step if and only if the step is neither its release nor the failure of its own task, and the latter needs an aborted trim and a pending task |
| `SchedulerUse.InUseUntilRelease` | src/scheduler/ExpertState.cpp:96-157 | along every run, an expert in use with no pending task keeps its state, tier and count, and gets no task, until its release |
| `SchedulerUse.SecureExactly` | src/scheduler/Scheduler.cpp:408-450 | with a task pending: a step other than its release leaves an expert in use, and safe from failure at the next step too, if and only if it is not the commit of its own task with a trim that will abort, judged before the step |
| `SchedulerUse.InUseUntilAbort` | src/scheduler/Scheduler.cpp:387-458 | along every run, an expert in use keeps its state, tier and count until its release or such a commit |
| `SchedulerTheorems.NvmeNeverSucceeds` | src/memory/TransferManager.cpp:80-83 | on every run no request for NVMe is ever answered with success, because the transfer engine refuses that destination |
| `SchedulerPrefetch.GreedyExists` | src/scheduler/Scheduler.cpp:400-421 | the greedy choice in ascending key order exists and its bytes never pass the limit, so the loop's subtraction never underflows |
| `SchedulerPrefetch.GreedyUnique` | src/scheduler/Scheduler.cpp:400-421 | it is unique |
| `SchedulerPrefetch.TrimFollowsGreedy` | src/scheduler/Scheduler.cpp:400-421 | the trim loop, from any point, throws out exactly what the greedy choice rejects, and aborts exactly when one of those (other than its own) cannot be reconciled |
| `SchedulerPrefetch.CommitBound` | src/scheduler/Scheduler.cpp:387-423 | after a speculative commit whose trim completed, the prefetched payloads are the greedy choice and fit the limit; it completes if and only if every other rejected expert can be reconciled |
| `SchedulerPrefetch.ScheduleAccounting` | src/scheduler/Scheduler.cpp:91-97 | a scheduling call raises the prefetched bytes exactly when it is a prefetch of an expert already in place whose payload was not counted, and by exactly that payload |
| `SchedulerBound.CommitAccounting` | src/scheduler/Scheduler.cpp:387-423 | the exact prefetched bytes after every commit, plain, trimmed or aborted, and exactly when it aborts, all from the state before it |
| `SchedulerBound.TrimLeaves` | src/scheduler/Scheduler.cpp:400-421 | the trim loop from its start leaves everything but the rejected experts, or after an abort everything but the rejected ones up to the first that cannot be sent back |
| `SchedulerBound.BoundExactly` | src/scheduler/Scheduler.cpp:55-423 | from a state within the limit, a step of any kind leads to a state within it if and only if a predicate of the state before it says so |
| `SchedulerBound.BoundKept` | src/scheduler/Scheduler.cpp:387-423 | every step except three, named by guards on the state before it, keeps the prefetched bytes within the limit |
| `SchedulerBound.DirectInsertBreaksBound` | src/scheduler/Scheduler.cpp:96-97 | a run on which a prefetch of an expert already in place passes the limit |
| `SchedulerBound.PlainCommitBreaksBound` | src/scheduler/Scheduler.cpp:393-399 | a run on which a plain commit that replaces a prefetched payload passes it |
| `SchedulerBound.AbortBreaksBound` | src/scheduler/Scheduler.cpp:408-423 | a run on which an aborted trim passes it |
| `SchedulerPrefetch.ExpertInUseCanBeFailed` | src/scheduler/Scheduler.cpp:408-416 | a run in which an expert in use is marked failed by its own worker after the trim aborts on another expert |
| `SchedulerCalls.OutcomeExactly` | src/scheduler/Scheduler.cpp:60-151 | the four outcomes of a scheduling call, each if and only if a condition on the fields of state and request: answered now for an expert ready or in use at the destination, joined to a pending task for the same destination, a new task where the lifecycle allows it, refused otherwise |
| `SchedulerCalls.AcceptedLeaves` | src/scheduler/Scheduler.cpp:122-146 | everything a call that opens a task leaves: the task, its pending entry, its one heap entry and its expert's lifecycle, the rest unchanged |
| `SchedulerCalls.ReadyLeaves` | src/scheduler/Scheduler.cpp:73-97 | an immediate answer changes nothing but prefetch marks: a prefetch sets its expert's, active demand under a profiler clears it |
| `SchedulerCalls.JoinLeaves` | src/scheduler/Scheduler.cpp:101-121 | everything a join leaves: an upgrade, of a task no worker has started, raises priority and score and queues it under a new generation; the rest of the request is kept |
| `SchedulerCalls.OrderIs` | src/scheduler/Scheduler.cpp:273-282 | active inference before next-layer predictions before warming before maintenance, then the score, then the age |
| `SchedulerCalls.ShutdownLeaves` | src/scheduler/Scheduler.cpp:256-265 | shutdown cancels exactly the pending tasks, once |
| `SchedulerAnswers.SuccessIsEarned` | src/scheduler/Scheduler.cpp:364-450 | on every run a task is answered with success only after the transfer engine reported its transfer completed |
| `SchedulerAnswers.CancelledInTimeFails` | src/scheduler/Scheduler.cpp:335-341 | a task cancelled before its worker's check is never transferred and never answered with success, on any continuation |
| `SchedulerAnswers.BeginLeaves` | src/scheduler/Scheduler.cpp:343-345 | in every state of the invariant the expert is marked loading, an eviction's stays as it is, nothing else changes |
| `SchedulerAnswers.MarkReadyLeaves` | src/scheduler/Scheduler.cpp:377-378 | in every state of the invariant the expert is then ready at the destination of the request |
| `SchedulerAnswers.CompleteLeaves` | src/scheduler/Scheduler.cpp:460-471 | completion closes the task and frees its expert for another |
| `SchedulerClass.Scheduler.Schedule` | src/scheduler/Scheduler.cpp:55-151 | the locked section of schedule, branch by branch, is the model's scheduling step, outcome included |
| `SchedulerClass.Scheduler.ConsumePrefetch` | src/scheduler/Scheduler.cpp:71-89 | the accounting of active demand |
| `SchedulerClass.Scheduler.JoinPending` | src/scheduler/Scheduler.cpp:101-121 | joining: callback appended, consumer flag, and on an upgrade a new generation with a fresh heap entry |
| `SchedulerClass.Scheduler.OpenTask` | src/scheduler/Scheduler.cpp:122-146 | a new task with its lifecycle transitions, or a refusal that changes nothing |
| `SchedulerClass.Scheduler.ReadyResult` | src/scheduler/Scheduler.cpp:284-307 | the answer of a call whose expert is in place: the held payload and present state, the callback run once, the promise given one value |
| `SchedulerClass.Scheduler.Call` | src/scheduler/Scheduler.cpp:55-151 | a whole call: its callback is in one place only, run once next to the one successful value of the promise, or last on the task it joined or opened, or nowhere when the call is refused |
| `SchedulerClass.Scheduler.Top` | src/scheduler/Scheduler.cpp:273-282 | the heap's top is the best entry of all |
| `SchedulerClass.Scheduler.PopNext` | src/scheduler/Scheduler.cpp:312-330 | the pop loop starts the best live entry's task, drops what outranks it and keeps everything else; with nothing live it empties the heap |
| `SchedulerClass.Scheduler.Commit` | src/scheduler/Scheduler.cpp:387-423 | storing a transfer and trimming is the model's commit over the sorted candidates |
| `SchedulerClass.Scheduler.TrimPrefetched` | src/scheduler/Scheduler.cpp:400-421 | the trim loop over sorted keys is the model's trim, aborts included |
| `SchedulerClass.Scheduler.ExpirePrefetchesBefore` | src/scheduler/Scheduler.cpp:198-217 | in whatever order the set is walked: runs to its end exactly when every expired expert can be sent back, and then those and no others are out; a refusal leaves one whose payload is gone and whose key still counts |
| `SchedulerExpiry.ExpiryExactly` | src/scheduler/Scheduler.cpp:198-217 | when expiry runs to its end, what is out then, what a refusal leaves, and that nothing else loses its payload |
| `SchedulerExpiry.ExpiryCanStop` | src/scheduler/Scheduler.cpp:206-209 | a run on which expiry is refused at a prefetched expert in use |
| `SchedulerClass.Scheduler.AcknowledgeResidency` | src/scheduler/Scheduler.cpp:228-241 | adoption of a transfer: refused for a pending expert, without effect, and by the lifecycle table, with the payload already dropped |
| `SchedulerClass.Scheduler.ReconcileResidency` | src/scheduler/Scheduler.cpp:243-251 | does nothing with a pending task or a held payload; otherwise reconciles, or is refused exactly when the lifecycle table refuses |
| `SchedulerClass.Scheduler.CompleteTask` | src/scheduler/Scheduler.cpp:460-471 | the locked section of completion; the callbacks to run are those attached |
| `SchedulerClass.Scheduler.StopAccepting` | src/scheduler/Scheduler.cpp:256-265 | the locked section of shutdown cancels exactly the pending tasks, once |
| `TransferTheorems.StepKeeps` | src/memory/TransferManager.cpp:80-371 | every client and worker stretch keeps the engine's invariant |
| `TransferTheorems.EveryTaskIsAccountedFor` | src/memory/TransferManager.cpp:144-371 | on every interleaving a submitted task is in the queue, in exactly one worker's hands, or answered exactly once and truthfully; no two completions share a number |
| `TransferTheorems.NothingOvertakes` | src/memory/TransferManager.cpp:135-155 | whatever a worker has taken, every earlier task of no lower a priority has been taken too |
| `TransferTheorems.TakesHighest` | src/memory/TransferManager.cpp:135-155 | a worker takes the task of highest priority, among equals the one submitted first |
| `TransferTheorems.NoneLeftAfterShutdown` | src/memory/TransferManager.cpp:113-133 | when all workers have left, the queue is empty and every task has its one answer |
| `TransferTheorems.QueuedAtShutdownIsCancelled` | src/memory/TransferManager.cpp:113-161 | along every continuation a task queued at shutdown is unanswered or answered as cancelled, and its callback never runs |
| `TransferTheorems.DrainingEnds` | src/memory/TransferManager.cpp:144-371 | while stopping, every worker stretch uses up work and nothing adds any |
| `TransferTheorems.WorkerCanStep` | src/memory/TransferManager.cpp:144-160 | no worker of a stopping engine is stuck before it has left |
| `TransferShutdown.ShutdownKeepsPromiseExactly` | src/memory/TransferManager.cpp:113-133 | from every reachable state a shutdown call can return, and all its returns leave every task answered if and only if it is the call that set the flag, or everything was answered |
| `TransferShutdown.ShutdownFinishes` | src/memory/TransferManager.cpp:113-133 | from every reachable stopping state a state is reached in which all workers have left |
| `TransferShutdown.SecondShutdownMayReturnEarly` | src/memory/TransferManager.cpp:116-118 | a reachable state in which a second call returns at once although a task is unanswered |
| `TransferManagerClass.ThroughFromMoving` | src/memory/TransferManager.cpp:219-370 | the last stretches together: only a backend move can fail, only a real move looks at the cancel flag again, a throwing callback turns the answer into an error |
| `TransferManagerClass.AnswerExactly` | src/memory/TransferManager.cpp:157-371 | when a task is answered as completed, cancelled or failed, and when its callback is called, by source, destination, buffer and what loader, backend, callback and cancel flag do; and the bytes, tier and traffic of a completed one |
| `TransferManagerClass.TransferManager.Submit` | src/memory/TransferManager.cpp:80-98 | refuses NVMe and a stopping engine; otherwise the task is queued with the next sequence number |
| `TransferManagerClass.TransferManager.Top` | src/memory/TransferManager.cpp:135-142 | the top of a heap is the best task of all |
| `TransferManagerClass.TransferManager.TakeTop` | src/memory/TransferManager.cpp:135-155 | the task taken is the best by priority, then submission |
| `TransferManagerClass.TransferManager.Acquire` | src/memory/TransferManager.cpp:167-200 | the bytes to move: loaded, or from a buffer of exactly the stored size |
| `TransferManagerClass.TransferManager.Process` | src/memory/TransferManager.cpp:157-371 | on every path through one task the promise is set exactly once, with the answer the worker's stretches lead to |
| `TransferManagerClass.TransferManager.Finish` | src/memory/TransferManager.cpp:362-370 | completion number, callback, promise |
| `TransferManagerClass.TransferManager.BeginShutdown` | src/memory/TransferManager.cpp:113-125 | the loop that pops a copy of the heap cancels every queued task, once, and leaves the heap alone |
| `Routing.SoftmaxKeepsOrder` | src/router/CpuRouterBackend.cpp:51-64 | softmax is a positive distribution that keeps order and ties |
| `Routing.TopKUnique` | src/router/CpuRouterBackend.cpp:65-73 | there is only one top k by score, then identifier |
| `Routing.TopKPrefix` | src/validation/CorrectnessOracle.cpp:80-125 | every prefix of a sorted list of all experts is the top k of its length |
| `Routing.TopKByOrder` | src/router/CpuRouterBackend.cpp:65-73 | scores that order the experts alike have the same top k |
| `Routing.SortPrefix` | src/router/CpuRouterBackend.cpp:65-73 | the partial sort yields the top k |
| `Routing.RouteMeans` | src/router/CpuRouterBackend.cpp:35-91 | the decision's experts are the top k by raw logits, whatever the normalisation; renormalised scores sum to one; softmax scores are positive and descending and never fail |
| `RoutingFormulas.RawScores` | src/router/CpuRouterBackend.cpp:70-89 | without softmax every score is its own expert's logit, or that logit over the sum of the selected ones |
| `RoutingFormulas.SoftmaxScores` | src/router/CpuRouterBackend.cpp:50-89 | with softmax there is always a decision; every score is its expert's exponential over the sum of all, or renormalised in the ratio of the exponentials |
| `RoutingFormulas.RouteErrors` | src/router/CpuRouterBackend.cpp:80-86 | the exact conditions of the three errors |
| `RoutingFormulas.RoutedByLogits` | src/router/CpuRouterBackend.cpp:35-48 | a batch routes a token by logits that are each the sum of hidden component times weight, written out over the flat arrays |
| `Routing.RouteToken` | src/router/CpuRouterBackend.cpp:35-91 | score loops, softmax in place, partial sort and renormalisation compute that decision |
| `Routing.SelectFromLogits` | src/validation/CorrectnessOracle.cpp:80-125 | the oracle's full sort cut at k computes the same decision, with its configuration and size errors |
| `Grouping.GroupedUnique` | src/router/CpuRouterBackend.cpp:137-159 | sorted groups of the same assignments are one list only |
| `Grouping.GroupsHoldEachOnce` | src/router/CpuRouterBackend.cpp:137-159 | groups in any order hold every (token, rank, score) exactly once |
| `Grouping.TokensAscend` | src/router/CpuRouterBackend.cpp:137-159 | within a group the tokens strictly ascend |
| `Grouping.RouteBatch` | src/router/CpuRouterBackend.cpp:125-160 | a batch fails exactly if a token's route does; otherwise tokens are the routes and the groups are their regrouping, experts strictly ascending |
| `Grouping.RouteChecked` | src/router/CpuRouterBackend.cpp:13-33 | the entry checks: a bad configuration, then mismatched dimensions, then the batch |
| `Grouping.MakeDecision` | src/router/CudaRouterBackend.cpp:29-69 | a flat selection is regrouped the same way; errors exactly for a size beyond 64 bits, for inconsistent sizes and for an invalid expert |
| `RoutingFormulas.SelectionAt` | src/router/CudaRouterBackend.cpp:46-56 | token t's rank r is read at t * topK + r of the flat selection |
| `Grouping.BuildersAgree` | src/router/CudaRouterBackend.cpp:41-68 | regrouping the flat selection of a routed batch gives that batch, tokens and groups alike |
| `Experts.ExpertMlp` | src/validation/CorrectnessOracle.cpp:163-217 | the oracle's gated expert computes each row by itself; errors exactly for bad dimensions |
| `Experts.RunExpert` | src/validation/CorrectnessOracle.cpp:180-216 | an expert over a gathered buffer never mixes rows |
| `ExpertFormulas.GatedIs` | src/validation/CorrectnessOracle.cpp:191-207 | every intermediate component times 1 + exp(-g) is g times u, for the gate projection g and the up projection u of its own columns |
| `ExpertFormulas.OutputIs` | src/validation/CorrectnessOracle.cpp:208-215 | every output component is the sum of intermediate component times down weight |
| `ExpertFormulas.NarrowOutput` | src/validation/CorrectnessOracle.cpp:191-215 | with one intermediate component the whole formula in one line |
| `Combination.TotalPermuted` | src/validation/CorrectnessOracle.cpp:247-280 | the weighted total of a token does not depend on the order of assignments |
| `Combination.GroupingKeepsMeaning` | src/core/runtime/MoERuntime.cpp:100-121 | whatever the order of the groups, a token's total is the sum over its own selected experts |
| `Combination.ScatterAdd` | src/core/runtime/MoERuntime.cpp:317-324 | the nested loops add every weighted row at its token, in place, and touch nothing else |
| `Combination.Gather` | src/core/runtime/MoERuntime.cpp:288-299 | the gathered buffer is the rows of the group's tokens |
| `Combination.RunGroup` | src/core/runtime/MoERuntime.cpp:288-325 | gather, run and scatter-add extend the totals by one group |
| `Combination.ExecuteBatch` | src/core/runtime/MoERuntime.cpp:100-325 | the batch loop succeeds exactly when its checks pass and every expert is known and fits; then each component is the total over all groups |
| `Combination.RoutedBatchesPassChecks` | src/core/runtime/MoERuntime.cpp:100-123 | no check of the runtime, the assignment count included, fails on a batch the router built |
| `Combination.RunnableExactly` | src/core/runtime/MoERuntime.cpp:100-325 | a routed batch runs, with a given width, exactly when every expert its tokens select fits that width |
| `Combination.ExecutionGivesOwed` | src/core/runtime/MoERuntime.cpp:288-325 | the runtime gives each token the sum over its selected experts of score times that expert's output |
| `Combination.Execute` | src/core/runtime/MoERuntime.cpp:58-325 | routing and execution together: succeeds exactly when every token has a route and the selected experts are known, fit the input and agree on a width; then every component of every token is what its own route owes it |
| `ExpertFormulas.OwedIs` | src/core/runtime/MoERuntime.cpp:308-320 | what a token is owed is the sum over its ranks of score times that expert's output |
| `ExpertFormulas.OutputOfToken` | src/core/runtime/MoERuntime.cpp:290-306 | the output it is owed from an expert is computed from the token's own row of the batch |
| `Combination.CombineExperts` | src/validation/CorrectnessOracle.cpp:247-280 | the oracle's combination with its checks: values and per-token weight sums |
| `Combination.OracleAgrees` | src/validation/CorrectnessOracle.cpp:247-280 | combining the same experts' outputs in any group order equals what the runtime owes, and the reported weights are the sums of the routing scores |
| `Attention.AttendRow` | src/validation/CorrectnessOracle.cpp:402-438 | the three passes over scores, exponentials and values compute softmax attention over the visible keys only |
| `Attention.CausalAttention` | src/validation/CorrectnessOracle.cpp:376-440 | the loops over tokens and heads; errors for bad shapes and for a query without a visible key |
| `AttentionFormulas.RowFormula` | src/validation/CorrectnessOracle.cpp:391-440 | for the key-value head whose group of query heads a row's head lies in: row component times the sum of exp(score - best) over the visible tokens is the sum of exp(score - best) times value component, every score the scaled sum of products, all over the flat cache |
| `AttentionFormulas.RowOfHead` | src/validation/CorrectnessOracle.cpp:394-399 | query heads share key-value heads in consecutive groups of equal size |
| `AttentionFormulas.OnlyOwnHead` | src/validation/CorrectnessOracle.cpp:394-399 | caches with the same entries for a key-value head give its query heads the same rows |
| `AttentionFormulas.NoRow` | src/validation/CorrectnessOracle.cpp:427-429 | attention fails for a row exactly when no token of the cache is early enough |
| `Attention.LaterKeysDoNotMatter` | src/validation/CorrectnessOracle.cpp:376-440 | caches that are the same once their tokens at or after the end of the batch are removed give the same rows: later tokens may be removed, added or changed, any number of them, wherever they stand |
| `Attention.LaterTokenDoesNotMatter` | src/validation/CorrectnessOracle.cpp:376-440 | removing one later token, or putting it back, at any index leaves every row as it was |
| `Attention.StrippedKeepsEarlier` | src/validation/CorrectnessOracle.cpp:376-440 | removing the later tokens removes exactly those and keeps the order of the rest |
| `Attention.BatchSplits` | src/validation/CorrectnessOracle.cpp:376-440 | a batch may be split at any token, the second part with its offset moved on |
| `Attention.PrefillIsDecoding` | src/validation/CorrectnessOracle.cpp:376-440 | the rows of a prefill are exactly the rows of step-by-step decoding over the growing cache |
| `Bytes.DecodeEncode` | src/storage/ExpertIndex.cpp:23-46 | reading undoes writing for every value that fits the width |
| `Bytes.EncodeDecode` | src/storage/ExpertIndex.cpp:23-46 | writing undoes reading for every byte string |
| `Crc32.Compute` | src/storage/ExpertStore.cpp:183-193 | the bitwise loops compute the checksum |
| `Crc32.IsTheRfcCrc` | src/storage/ExpertStore.cpp:183-193 | on every input it is the table-driven CRC of section 8 of RFC 1952 |
| `Crc32.FoldInjective` | src/storage/ExpertStore.cpp:183-193 | different states stay different over the same bytes |
| `Crc32.BurstIsDetected` | src/storage/ExpertStore.cpp:183-193 | two inputs of equal length that differ only within four consecutive bytes have different checksums |
| `IndexFormat.ParseExactly` | src/storage/ExpertIndex.cpp:67-163 | a file parses to an index exactly when it is its long image, or its short image when it has no projections |
| `ImageLayout.ImageIsLaidOut` | src/storage/ExpertIndex.cpp:165-205 | the written file byte by byte: magic, version, byte-order mark, record sizes and count at literal offsets, then every field of every record and projection at its offset, little-endian, and nothing else |
| `IndexRules.AcceptableExactly` | src/storage/ExpertIndex.cpp:244-316 | the rules of an acceptable index in the fields of its records, with the codes, element sizes and bounds written out |
| `IndexRoundTrip.LoadUndoesSave` | src/storage/ExpertIndex.cpp:67-205 | load of save is the index if and only if the index is acceptable and fits the reader's size limits |
| `IndexRoundTrip.LoadAcceptsExactly` | src/storage/ExpertIndex.cpp:67-163 | load accepts exactly the images of acceptable indexes |
| `IndexRoundTrip.SaveUndoesLoad` | src/storage/ExpertIndex.cpp:165-205 | save of load is the file except for a version-2 file without projections, which comes back eight bytes shorter |
| `IndexRoundTrip.Save` | src/storage/ExpertIndex.cpp:165-205 | the writing loops produce the image |
| `IndexRoundTrip.ReadIndex` | src/storage/ExpertIndex.cpp:67-161 | the reading loops with their checks parse the file, or refuse it, exactly as specified |
| `ExpertIndexClass.CheckShape` | src/storage/ExpertIndex.cpp:292-314 | the overflow-guarded loops accept exactly the shapes whose true product times element width is the size |
| `ExpertIndexClass.ExpertIndex.RebuildLookup` | src/storage/ExpertIndex.cpp:244-316 | succeeds if and only if the index meets the declarative rules, and then the tables are complete |
| `ExpertIndexClass.ExpertIndex.BuildRecords` | src/storage/ExpertIndex.cpp:245-260 | the record loop accepts exactly unique keys, valid codes and ranges within 64 bits |
| `ExpertIndexClass.ExpertIndex.BuildProjections` | src/storage/ExpertIndex.cpp:261-315 | the projection loop accepts exactly unique slots of matching shape inside their expert |
| `ExpertIndexClass.ExpertIndex.Find` | src/storage/ExpertIndex.cpp:207-212 | agrees with a linear search |
| `ExpertIndexClass.ExpertIndex.FindProjection` | src/storage/ExpertIndex.cpp:222-233 | agrees with a linear search, for any kind |
| `ExpertIndexClass.Load` | src/storage/ExpertIndex.cpp:67-163 | a usable index exactly for the files that load accepts |
| `ExpertStore.AlignUpIsLeast` | src/storage/ExpertStore.cpp:15-20 | the least multiple of 4096 that is no smaller |
| `ExpertStore.BlobInPlace` | src/storage/ExpertStore.cpp:92-119 | every blob stands byte for byte at its 4096-aligned place |
| `ExpertStore.BlobsApart` | src/storage/ExpertStore.cpp:92-119 | the ranges of different blobs do not meet |
| `ExpertStore.GapsAreZero` | src/storage/ExpertStore.cpp:90-119 | every byte outside the blobs is zero, and nothing follows the last |
| `ExpertStore.RecordTells` | src/storage/ExpertStore.cpp:112-118 | a blob's record carries its identity, code, length, aligned offset and checksum |
| `ExpertStore.LayOut` | src/storage/ExpertStore.cpp:90-119 | the cursor loop writes that layout and its records, or refuses exactly what cannot be stored |
| `ExpertStore.StorableExactly` | src/storage/ExpertStore.cpp:90-119 | blobs are storable exactly when none is empty or beyond 63 bits and every partial file fits, before and after its blob |
| `ExpertStore.Create` | src/storage/ExpertStore.cpp:68-132 | refused exactly for the listed inputs, each with its own error, otherwise both files are as specified |
| `ExpertStore.ReadExpert` | src/storage/ExpertStore.cpp:158-181 | a read through the index is the read by linear search, with its errors |
| `ExpertStore.ReadExactly` | src/storage/ExpertStore.cpp:158-183 | reading an expert with one record: the refusals in their order, otherwise the bytes of its range |
| `ExpertStore.MissingExactly` | src/storage/ExpertStore.cpp:195-205 | a read is refused as missing exactly when no record names the expert |
| `ExpertStore.StoreReadsBack` | src/storage/ExpertStore.cpp:38-181 | the saved index loads, its records lie inside the data, and every blob is read back byte for byte with its checksum passing; beyond the stream limit the read is refused |
| `ExpertStore.DamageIsFound` | src/storage/ExpertStore.cpp:204-209 | damage to up to four neighbouring bytes of a blob makes the checked read of that expert fail, and of no other |
| `Products.Overflow` | src/tensor/Shape.cpp:63-72 | the division guard before a multiplication decides the true product |
| `Shapes.RowMajorIsBijection` | src/tensor/Shape.cpp:74-82 | row-major placement is a bijection onto the element numbers |
| `Shapes.ReachIsLargest` | src/tensor/Shape.cpp:28-40 | the storage count is one more than the largest reachable place, and that place is reached |
| `Shapes.ValidateAndCount` | src/tensor/Shape.cpp:63-72 | refuses exactly a zero dimension or a true count beyond 64 bits |
| `Shapes.FromDimensions` | src/tensor/Shape.cpp:12-16 | contiguous shape or refusal |
| `Shapes.FromStrides` | src/tensor/Shape.cpp:18-41 | accepts exactly the strides whose true reach fits, with counts as stated |
| `Shapes.StridesFitExactly` | src/tensor/Shape.cpp:18-41 | strides are accepted exactly when no index leaves what 64 bits can count, the elements too, and no stride is zero unless there is one element |
| `Shapes.IsContiguous` | src/tensor/Shape.cpp:54-61 | compares with row-major strides |
| `WeightConverter.TransposedElements` | tools/model_convert/WeightConverter.cpp:31-41 | element (column, row) of the result is element (row, column) of the source, all its bytes together |
| `ExpertViews.ElementInMatrix` | tools/model_convert/WeightConverter.cpp:31-41 | byte b of element (i, j) of a matrix of n columns stands at (i * n + j) * width + b |
| `WeightConverter.TransposedTwice` | tools/model_convert/WeightConverter.cpp:31-41 | transposing twice is the identity |
| `WeightConverter.Transpose` | tools/model_convert/WeightConverter.cpp:31-41 | the byte-copying double loop computes the transposition |
| `WeightConverter.Convert` | tools/model_convert/WeightConverter.cpp:9-43 | refuses exactly a rank other than two, a width of zero, a size beyond 64 bits and a size mismatch; copies or transposes by layout |
| `ExpertPacker.PackedIndexAccepted` | tools/model_convert/ExpertPacker.cpp:150-248 | the index of a valid manifest's packed experts is always accepted |
| `ExpertViews.PackedShapes` | tools/model_convert/ExpertPacker.cpp:173-230 | every packed projection is recorded as inputs by outputs with the source's element type, whatever its layout in the source |
| `ExpertPacker.PackProjection` | tools/model_convert/ExpertPacker.cpp:157-170 | one projection read and brought to input-by-output order |
| `ExpertPacker.PackExperts` | tools/model_convert/ExpertPacker.cpp:147-248 | the expert loop succeeds exactly when every range is readable, every payload storable and no expert is INT8; data, records and projections are as specified |
| `ExpertViews.ExpertWeightMap.Add` | src/models/ExpertWeightMap.cpp:15-35 | a projection enters its binding once; identity mismatch and duplicate are refused |
| `ExpertViews.ProjectionView` | src/models/ExpertWeightMap.cpp:71-102 | the checks of one view pass for every packed projection and the slice is its stored bytes; an INT8 one is refused |
| `ExpertViews.StartAligned` | src/tensor/TensorView.cpp:145-153 | every packed projection starts a whole number of elements into its payload |
| `ExpertViews.PackedElements` | tools/model_convert/ExpertPacker.cpp:157-170 | a stored projection holds the source's logical matrix entry by entry |
| `ExpertViews.SourceElementAt` | tools/model_convert/WeightConverter.cpp:20-41 | where byte b of the source's element (input, output) stands in its file, in either layout |
| `ExpertViews.PackedViewsShowSource` | src/models/ExpertWeightMap.cpp:65-108 | views on the packed payload show gate, up and down of the source entry by entry, at 4096-aligned starts within the file; exactly INT8 experts give none |
| `ExpertViews.MakeMappings` | src/models/runtime/PackedModelRuntime.cpp:74-98 | adding the 3n packed projections to an empty weight map is never refused unless an expert appears twice; the map then holds every expert's three projections under its key and nothing else |
| `ExpertViews.ExpertWeightMap.CreateViews` | src/models/ExpertWeightMap.cpp:37-108 | not found exactly without a binding, incomplete exactly without all three projections, and three views exactly when each projection's own view is made |
| `ExpertViews.MappedViewsShowSource` | src/models/ExpertWeightMap.cpp:65-108 | through that map, every packed expert's payload gives its three views, each showing the source entry by entry; exactly INT8 experts give none |
| `ExpertViews.OnlyMappedExperts` | src/models/ExpertWeightMap.cpp:43-48 | an expert is not found in that map exactly when it was not packed |
| `ExpertViews.ProjectionsApart` | tools/model_convert/ExpertPacker.cpp:173-230 | no two projections of the data file overlap, of one expert or of two |
| `MemoryPool.AlignedSize` | src/backend/cuda/CudaMemoryPool.cpp:16-22 | the next multiple of 256, refused exactly for zero and overflow |
| `MemoryPool.SmallestFit` | src/backend/cuda/CudaMemoryPool.cpp:52-60 | what the ordered map finds is the smallest sufficient block |
| `MemoryPool.Pool.Acquire` | src/backend/cuda/CudaMemoryPool.cpp:47-83 | smallest sufficient block reused, otherwise exactly the aligned size asked of the backend; refusals change nothing, the history included; the books (allocated = active + free, each the sum of its map, free bytes within the cache limit, no pointer both active and free, peak the maximum of the whole history of active bytes) are kept |
| `MemoryPool.Pool.Release` | src/backend/cuda/CudaMemoryPool.cpp:85-111 | cached exactly if accepting and within the limit, otherwise handed to the backend; the history grows by the new active bytes, peak and counters stay; an unknown pointer changes nothing |
| `MemoryPool.Pool.DrainOne` | src/backend/cuda/CudaMemoryPool.cpp:113-127 | the smallest free block leaves with its bytes |
| `MemoryPool.Pool.Drain` | src/backend/cuda/CudaMemoryPool.cpp:113-127 | the cache ends empty; active blocks, history, peak and counters untouched |
| `MemoryPool.ComesToNext` | src/backend/cuda/CudaMemoryPool.cpp:85-127 | in a pool that accepts nothing, one more release, trim or backend call by another thread carries the account on: an active block is out until its release and then its backend call, a leaving one until its backend call, a cached one never unless a trim took it |
| `MemoryPool.NobodyHolds` | src/backend/cuda/CudaMemoryPool.cpp:85-127 | by that account nobody holds a block once everything has been released and given back, and without trims only then |
| `MemoryPool.Pool.Other` | src/backend/cuda/CudaMemoryPool.cpp:85-127 | one section or backend call of another thread after the pool has stopped accepting, never touching the block in somebody else's hands |
| `MemoryPool.Pool.Shutdown` | src/backend/cuda/CudaMemoryPool.cpp:113-127 | the flag, then the drain loop with its backend calls, whatever other threads release, trim and give back between any two of its moves: nothing is accepted, nothing is cached, every block it took is back, and outstanding is exactly what others still hold |
| `MemoryPool.Pool.CloseDown` | src/backend/cuda/CudaMemoryPool.cpp:204-211 | from any state of the pool, shutdown and what others do after it: once every buffer is released and given back, nothing is outstanding at the backend and all byte counts are zero; without trims by others, if and only if |
| `MemoryPool.Pool.ReleaseLate` | src/backend/cuda/CudaMemoryPool.cpp:85-111 | after shutdown a release goes straight back to the backend; peak and counters stay |
| `Tallies.DecayedTallyAges` | src/prediction/TransitionDatabase.cpp:35-38 | one observation later every weighted sum over the log is multiplied by the decay factor |
| `CountFormulas.TallyIs` | src/prediction/TransitionDatabase.cpp:64-68 | a tally is the sum of the occurrences in every observation |
| `CountFormulas.DecayedIs` | src/prediction/TransitionDatabase.cpp:35-43 | a decayed tally is the sum of occurrences times decay to the age |
| `Tallies.Increment` | src/prediction/TransitionDatabase.cpp:40-43 | a lazy increment adds one to the decayed value of its key now and leaves every other value alone |
| `Tallies.AgreesNext` | src/prediction/TransitionDatabase.cpp:64-86 | counters that agreed with the log agree with the log one observation longer |
| `TransitionDatabase.Make` | src/prediction/TransitionDatabase.cpp:27-33 | a zero window and a factor outside (0, 1] are refused |
| `TransitionDatabase.CountMoves` | src/prediction/TransitionDatabase.cpp:69-77 | the nested loops count each move from a previous to a current selection |
| `TransitionDatabase.CountPairs` | src/prediction/TransitionDatabase.cpp:78-82 | the triangular loops count each unordered pair once |
| `CountFormulas.CrossedCount` | src/prediction/TransitionDatabase.cpp:69-77 | between two selections a move is counted as often as its ends meet: the product of their occurrences |
| `CountFormulas.PairsCount` | src/prediction/TransitionDatabase.cpp:78-82 | an unordered pair of different experts is counted the product of their occurrences, an expert with itself n(n-1)/2 times, and never in the wrong order |
| `CountFormulas.ObservationIs` | src/prediction/TransitionDatabase.cpp:55-87 | every recorded decision is one observation, in order: its selections, the moves from what its own stream remembered, its pairs |
| `CountFormulas.PreviousIs` | src/prediction/TransitionDatabase.cpp:63-92 | a stream remembers its own last selections, or nothing after its end |
| `TransitionDatabase.PushRecent` | src/prediction/TransitionDatabase.cpp:84-85 | the window is the last selections of the whole log |
| `TransitionDatabase.Database.Record` | src/prediction/TransitionDatabase.cpp:55-87 | every table keeps agreeing with the full log: counts, per-stream moves, pairs, window and decayed sums; an invalid decision changes nothing |
| `TransitionDatabase.Database.EndStream` | src/prediction/TransitionDatabase.cpp:89-92 | forgets the stream and keeps all agreement |
| `TransitionDatabase.ExpertsInLayer` | src/prediction/TransitionDatabase.cpp:124-135 | the experts of a layer, ascending |
| `TransitionDatabase.WindowColumn` | src/prediction/TransitionDatabase.cpp:166-177 | window counts of the candidates and their total |
| `TransitionDatabase.PredictionStatistics` | src/prediction/TransitionDatabase.cpp:145-208 | every field equals its definition on the log, and every total the sum over the candidates |
| `AccessTraces.RecencyByTime` | src/experts/expert_cache/lru_cache_policy.cpp:7-15 | the recency list holds exactly the experts seen, in the order of the clock stamps |
| `AccessTraces.OlderByTime` | src/experts/expert_cache/lru_cache_policy.cpp:26-32 | comparing stamps, then identifiers, is comparing places in the recency list |
| `AccessTraces.AccessedLater` | src/experts/expert_cache/lru_cache_policy.cpp:7-15 | an expert not accessed since another's access is the older, whatever else happens |
| `AccessTraces.OlderTotal` | src/experts/expert_cache/lru_cache_policy.cpp:26-32 | age is a strict total order, so victims cannot depend on candidate order |
| `TraceFormulas.ClockIs` | src/experts/expert_cache/lru_cache_policy.cpp:7-15 | the clock reads the number of accesses and first sights |
| `TraceFormulas.StampIs` | src/experts/expert_cache/lru_cache_policy.cpp:7-15 | a stamp is the reading at the expert's last access, or at its first sight |
| `TraceFormulas.AccessesIs` | src/cache/LFUPolicy.cpp:7-10 | an access count is the number of accesses in the trace |
| `AccessTraces.MostAccessesIsMaximum` | src/cache/HybridPolicy.cpp:34-35 | the tracked maximum is the largest access count, and some expert has it |
| `LruPolicy.LruCachePolicy.OnAccess` | src/experts/expert_cache/lru_cache_policy.cpp:7-9 | stamps and clock keep agreeing with the whole trace |
| `LruPolicy.LruCachePolicy.OnResident` | src/experts/expert_cache/lru_cache_policy.cpp:11-15 | an arrival stamps only an expert never seen |
| `LruPolicy.LruCachePolicy.SelectVictim` | src/experts/expert_cache/lru_cache_policy.cpp:19-35 | none exactly without eligible candidates; otherwise the oldest eligible one of the list-based recency over the trace |
| `LruPolicy.VictimUnique` | src/experts/expert_cache/lru_cache_policy.cpp:19-35 | the victim depends on the set of eligible candidates only |
| `VictimFormulas.LeastRecent` | src/experts/expert_cache/lru_cache_policy.cpp:19-35 | the victim has the smallest stamp, of equal ones the smallest identifier; there is none exactly without eligible experts |
| `LfuPolicy.LfuCachePolicy.OnAccess` | src/cache/LFUPolicy.cpp:7-10 | counts and stamps keep agreeing with the trace |
| `LfuPolicy.LfuCachePolicy.OnResident` | src/cache/LFUPolicy.cpp:12-17 | an arrival counts as no access |
| `LfuPolicy.LfuCachePolicy.SelectVictim` | src/cache/LFUPolicy.cpp:21-44 | fewest accesses over the trace, then the oldest, then the identifier |
| `LfuPolicy.VictimUnique` | src/cache/LFUPolicy.cpp:21-44 | the victim depends on the set of eligible candidates only |
| `VictimFormulas.LeastFrequent` | src/cache/LFUPolicy.cpp:21-44 | the victim has the fewest accesses, then the smallest stamp, then the smallest identifier |
| `HybridPolicy.PopularityAges` | src/cache/HybridPolicy.cpp:26-33 | the weighted sum over all accesses is multiplied by one decay factor a tick |
| `TraceFormulas.PopularityIs` | src/cache/HybridPolicy.cpp:26-37 | popularity is the sum, over the accesses, of decay to the ticks since |
| `TraceFormulas.HintIs` | src/cache/HybridPolicy.cpp:48-56 | the hint time of an expert is the clock at its last hint of either kind |
| `HybridPolicy.AccruedIsPopularity` | src/cache/HybridPolicy.cpp:26-37 | the lazily decayed count after an access equals the sum over all accesses of decay to the age |
| `HybridPolicy.UntouchedFades` | src/cache/HybridPolicy.cpp:78-87 | without accesses popularity shrinks by one factor a tick, whatever else happens |
| `HybridPolicy.OneWindowHalves` | src/cache/HybridPolicy.cpp:82-93 | one observation window later every decayed quantity is half of what it was |
| `HybridPolicy.ScoreBounds` | src/cache/HybridPolicy.cpp:78-99 | both scores lie between 0 and 1, the aged one below 1 |
| `HybridFormulas.PlainFormula` | src/cache/HybridPolicy.cpp:100-121 | the plain score: four tenths of the share of accesses, three tenths of the share of the clock, two tenths layer hint, one tenth confidence |
| `HybridFormulas.AgedFormula` | src/cache/HybridPolicy.cpp:79-98 | the age-aware score: four tenths p / (p + 8) for popularity p, three tenths decay since the last touch, three tenths of both hints times the decay since the last one |
| `HybridFormulas.LayerIs` | src/cache/HybridPolicy.cpp:48-51 | the layer hint is the last one given, cut off at 0 and 1 |
| `HybridFormulas.ConfidenceIs` | src/cache/HybridPolicy.cpp:53-56 | the confidence is the last one given, cut off at 0 and 1 |
| `HybridPolicy.SaturatedGrows` | src/cache/HybridPolicy.cpp:94-96 | the popularity share is strictly increasing and below 1 |
| `HybridPolicy.Make` | src/cache/HybridPolicy.cpp:19-24 | an observation window of zero is refused |
| `HybridPolicy.HybridCachePolicy.OnAccess` | src/cache/HybridPolicy.cpp:26-37 | all counters keep agreeing with the trace, the lazily decayed one included |
| `HybridPolicy.HybridCachePolicy.OnResident` | src/cache/HybridPolicy.cpp:39-44 | likewise on arrival |
| `HybridPolicy.HybridCachePolicy.SetLayerProbability` | src/cache/HybridPolicy.cpp:48-51 | the clamped hint and its time |
| `HybridPolicy.HybridCachePolicy.SetPrefetchConfidence` | src/cache/HybridPolicy.cpp:53-56 | the clamped hint and its time |
| `HybridPolicy.HybridCachePolicy.Score` | src/cache/HybridPolicy.cpp:78-121 | the stored score is the score of the whole trace |
| `HybridPolicy.HybridCachePolicy.SelectVictim` | src/cache/HybridPolicy.cpp:58-76 | the least score over the trace, then the identifier |
| `HybridPolicy.VictimUnique` | src/cache/HybridPolicy.cpp:58-76 | the victim depends on the set of eligible candidates only |
| `VictimFormulas.LeastScore` | src/cache/HybridPolicy.cpp:58-76 | the victim has the least score, of equal ones the smallest identifier |
| `Spreading.SpreadSum` | src/generation/LogitsProcessor.cpp:43-51 | summing the vector in index order is summing the values in rank order |
| `LogitsProcessor.KeptIsShortest` | src/generation/LogitsProcessor.cpp:53-63 | the ranks kept are the shortest prefix that holds the share topP of all retained weight |
| `LogitsProcessor.DistributionMeans` | src/generation/LogitsProcessor.cpp:35-70 | the result is nonnegative and sums to one; its support is the shortest prefix of the stable descending order, within the top k, that reaches topP; kept probabilities are in the ratio of their exponentials |
| `SamplingFormulas.DistributionFormula` | src/generation/LogitsProcessor.cpp:35-70 | the same with everything written out: the best-first order, the retained ranks, the exponentials of logits over the temperature (1 when greedy), the share topP, the ratios |
| `SamplingFormulas.ChancesByTemperature` | src/generation/LogitsProcessor.cpp:35-44 | the chances of two tokens that have one stand in the ratio of the exponentials of their logits over the temperature |
| `LogitsProcessor.DistributionUnique` | src/generation/LogitsProcessor.cpp:35-70 | those facts leave only one distribution |
| `LogitsProcessor.CountKept` | src/generation/LogitsProcessor.cpp:53-63 | the cumulative walk finds that prefix |
| `LogitsProcessor.Probabilities` | src/generation/LogitsProcessor.cpp:21-71 | refuses exactly a bad configuration, otherwise computes that distribution; its own total check never fails |
| `Sampler.Walk` | src/generation/Sampler.cpp:32-40 | the index whose cumulative interval holds the draw; for sums that fall short, the last index of positive probability; never one of zero probability |
| `Sampler.HitsOne` | src/generation/Sampler.cpp:32-40 | a draw hits one token only, of positive probability, and a token's draws form an interval as long as its probability |
| `SamplingFormulas.DrawFormula` | src/generation/Sampler.cpp:29-31 | a draw times two to the 53rd is the top 53 of the generator's 64 bits |
| `Sampler.GreedyIsTopOne` | src/generation/Sampler.cpp:18-26 | the first maximum is the head of the stable descending order |
| `Sampler.SampleIsKept` | src/generation/Sampler.cpp:13-41 | the token is always within the top k, and k = 1 is greedy decoding |
| `SamplingFormulas.SampleFormula` | src/generation/Sampler.cpp:18-41 | greedily the first of the best logits, otherwise the token whose stretch of the running total holds the draw, both if and only if |
| `Sampler.TokenSampler.Sample` | src/generation/Sampler.cpp:13-41 | errors exactly for bad configuration or too large a vocabulary; only a stochastic sample uses up a draw, and the token is the one owed for it |

## Left out

- SchedulerClass.Scheduler.Schedule: one atomic step, although the lifecycle table has its own lock; only an acquire or release of the same expert can come between its snapshot and its transitions, and each such order is one wholly before or after the call or a refusal.
- SchedulerTheorems.ShutdownFinishes: states that a final state is reached, with the measure of WorkersWindDown for every other order of steps; fairness of threads and condition variables is not modelled.
- TransferManagerClass.TransferManager.Process: the outcome of loader, backend and callback is a parameter; CUDA streams, events and pinned staging are foreign calls.
- Attention.CausalAttention: the scale 1/sqrt(headDimension) is a parameter.
- Experts.ExpertMlp: states the output only, not the intermediate arrays of the trace.
- ExpertPacker.PackExperts: router, embedding, norm and attention tensors that follow the experts in the packed file are not modelled, nor is INT8 re-encoding.
- ExpertViews.MappedViewsShowSource: the address of the payload's buffer is not modelled, so the check that a slice is aligned in memory (src/tensor/TensorView.cpp:101-105) is absent; by StartAligned it passes whenever the buffer itself is aligned for the element type.
- ExpertStore.AlignUpIsLeast: the bit mask is written as a division.
- TransitionDatabase.PredictionStatistics: the candidates' fields are stored column by column.
- LogitsProcessor.Probabilities: non-finite logits do not occur in the model, nor does a non-finite total.
- Sampler.TokenSampler.Sample: the generator is a stream of 64-bit numbers fixed by the seed.
- HybridPolicy.HybridCachePolicy.Score: 2 to the power of -1/window is a number whose window-th power is one half.
- Floating point: rounding, NaN and infinity. Masked attention scores are absent rather than minus infinity.
- CUDA kernels, streams, cuBLAS, pinned buffers: foreign calls. The pool's backend is a source of fresh pointers or a refusal.
- The expert manager's leases and pressure-driven eviction, and the lookahead of executeBatch that depends on it.
- JSON manifests, importers, the tokenizer, the generator loop, sessions: field-by-field checking or code that is not part of this model.
- Files, memory maps, threads and wall-clock time: byte sequences and steps. Profiler counters and published events have no effect on the properties.
- Smaller guards of budgets, contexts and backends, which would only add easy members.
