/**
What a scheduling call decides and leaves, and what becomes of its task, told
in the fields of the tables (src/scheduler/Scheduler.cpp:60-151, 331-483).
 */
module SchedulerCalls {
  import opened Wrappers
  import opened ExpertStates
  import opened SchedulerModel
  import opened SchedulerInvariant
  import opened SchedulerTheorems

  // ---- the decision ----

  /** Known, not shutting down: the call gets as far as a decision. */
  predicate Considered(s: State, r: ScheduleRequest) {
    !s.stopping && r.layer * 0x1_0000_0000 + r.expert in s.experts
  }

  /** In place, in use or not: the answer needs no transfer. */
  predicate AnsweredNow(s: State, r: ScheduleRequest)
    requires Considered(s, r)
  {
    var k := r.layer * 0x1_0000_0000 + r.expert;
    && k !in s.pending && !r.eviction && s.experts[k].currentLocation == r.destination
    && (s.experts[k].state == Ready || s.experts[k].state == InUse)
  }

  predicate Joins(s: State, r: ScheduleRequest)
    requires Considered(s, r) && PendingOk(s)
  {
    var k := r.layer * 0x1_0000_0000 + r.expert;
    k in s.pending && s.tasks[s.pending[k]].request.destination == r.destination
  }

  /** An eviction needs a ready expert, a load one that is ready elsewhere or has failed. */
  predicate OpensTask(s: State, r: ScheduleRequest)
    requires Considered(s, r)
  {
    var k := r.layer * 0x1_0000_0000 + r.expert;
    && k !in s.pending
    && if r.eviction then s.experts[k].state == Ready
       else s.experts[k].state == Failed || (s.experts[k].state == Ready && s.experts[k].currentLocation != r.destination)
  }

  /** Every call has one of four outcomes, and the state and the request say
      which. */
  lemma {:induction false} OutcomeExactly(c: Config, s: State, r: ScheduleRequest, callback: Option<Callback>)
    requires PendingOk(s)
    ensures var (_, outcome) := Schedule(c, s, r, callback);
      && (outcome.ReadyNow? <==> Considered(s, r) && AnsweredNow(s, r))
      && (outcome.Coalesced? <==> Considered(s, r) && Joins(s, r))
      && (outcome.Accepted? <==> Considered(s, r) && OpensTask(s, r))
      && (outcome.Rejected? <==> !(Considered(s, r) && (AnsweredNow(s, r) || Joins(s, r) || OpensTask(s, r))))
      && (outcome.Coalesced? ==> outcome.task == s.pending[r.layer * 0x1_0000_0000 + r.expert])
      && (outcome.Accepted? ==> outcome.task == |s.tasks|)
  {
    hide Consume, Join, Enqueue;
    OpenExactly(s.experts, r);
    hide Open;
  }

  lemma {:induction false} OpenExactly(table: Table, r: ScheduleRequest)
    ensures var k := r.layer * 0x1_0000_0000 + r.expert;
      && (Open(table, r).Some? <==> k in table && (table[k].state == Ready || (!r.eviction && table[k].state == Failed)))
      && (Open(table, r).Some? ==>
            Open(table, r).value == table[k := table[k].(
              targetLocation := r.destination, state := if r.eviction then Evicting else Queued)])
  {
  }

  // ---- what it leaves ----

  /** A new task: alone pending for its expert, queued once, its expert on the
      way to the destination, nothing stored or dropped. */
  lemma {:induction false} AcceptedLeaves(c: Config, s: State, r: ScheduleRequest, callback: Option<Callback>)
    requires PendingOk(s) && Considered(s, r) && OpensTask(s, r)
    ensures var s' := Schedule(c, s, r, callback).0;
      var k, t := r.layer * 0x1_0000_0000 + r.expert, |s.tasks|;
      && |s'.tasks| == t + 1
      && s'.tasks[t].request == r && s'.tasks[t].callbacks == (if callback.Some? then [callback.value] else [])
      && !s'.tasks[t].started && !s'.tasks[t].completed && !s'.tasks[t].cancelled
      && s'.tasks[t].ran == [] && s'.tasks[t].answers == []
      && (s'.tasks[t].prefetchRequest <==> r.priority == PredictedNextLayer)
      && (s'.tasks[t].activeConsumer <==> r.priority == ActiveInference)
      && s'.pending == s.pending[k := t]
      && s'.queue == s.queue + {QueueEntry(t, r.priority, s.nextSequence, 0, r.score)}
      && s'.nextSequence == s.nextSequence + 1
      && s'.experts == s.experts[k := s.experts[k].(
           targetLocation := r.destination, state := if r.eviction then Evicting else Queued)]
      && s'.resident == s.resident && s'.workers == s.workers && s'.stopping == s.stopping
  {
    OutcomeExactly(c, s, r, callback);
    OpenExactly(s.experts, r);
    ConsumeLeaves(c, s, r);
    hide Consume, Open, AlreadyThere, Join;
  }

  /** Active demand uses up the prefetch mark of its expert, or tells a pending
      prefetch of a ready expert that it is consumed; only under a profiler. */
  lemma {:induction false} ConsumeLeaves(c: Config, s: State, r: ScheduleRequest)
    requires PendingOk(s) && r.Key() in s.experts
    ensures var s1 := Consume(c, s, r);
      var k := r.layer * 0x1_0000_0000 + r.expert;
      && s1 == s.(tasks := s1.tasks, prefetched := s1.prefetched) && |s1.tasks| == |s.tasks|
      && s1.prefetched == (if c.profiled && r.priority == ActiveInference then s.prefetched - {k} else s.prefetched)
      && forall t | 0 <= t < |s.tasks| ::
           s1.tasks[t] == s.tasks[t].(activeConsumer := s.tasks[t].activeConsumer ||
             (c.profiled && r.priority == ActiveInference && k !in s.prefetched && k in s.pending && s.pending[k] == t
              && s.tasks[t].prefetchRequest && s.experts[k].currentLocation == r.destination
              && s.experts[k].state == Ready))
  {
  }

  /** An immediate answer changes the prefetch marks only: a prefetch sets its
      expert's, active demand under a profiler clears it. */
  lemma {:induction false} ReadyLeaves(c: Config, s: State, r: ScheduleRequest, callback: Option<Callback>)
    requires PendingOk(s) && Considered(s, r) && AnsweredNow(s, r)
    ensures var s' := Schedule(c, s, r, callback).0;
      var k := r.layer * 0x1_0000_0000 + r.expert;
      s' == s.(prefetched :=
        if r.priority == PredictedNextLayer then s.prefetched + {k}
        else if r.priority == ActiveInference && c.profiled then s.prefetched - {k} else s.prefetched)
  {
    OutcomeExactly(c, s, r, callback);
    ConsumeLeaves(c, s, r);
    var s1 := Consume(c, s, r);
    assert s1.tasks == s.tasks;
    hide Consume, Join, Open, Enqueue;
  }

  /** Joining a task: an upgrade, of one that no worker has started, raises
      priority and score and queues it anew; nothing else of its request
      changes. */
  lemma {:induction false} JoinLeaves(s: State, t: TaskId, r: ScheduleRequest, callback: Option<Callback>)
    requires t < |s.tasks|
    ensures var s' := Join(s, t, r, callback);
      var a, b := s.tasks[t], s'.tasks[t];
      var higher := r.priority.Rank() > a.request.priority.Rank();
      var upgraded := !a.started && (higher || (r.priority == a.request.priority && r.score > a.request.score));
      && s' == s.(tasks := s.tasks[t := b], queue := s'.queue, nextSequence := s'.nextSequence)
      && b.callbacks == a.callbacks + (if callback.Some? then [callback.value] else [])
      && b.activeConsumer == (a.activeConsumer || r.priority == ActiveInference)
      && b.request == a.request.(priority := b.request.priority, score := b.request.score)
      && b == a.(request := b.request, callbacks := b.callbacks, activeConsumer := b.activeConsumer,
                 generation := b.generation, newest := b.newest)
      && b.request.priority == (if upgraded && higher then r.priority else a.request.priority)
      && b.request.score == (if upgraded && r.score > a.request.score then r.score else a.request.score)
      && b.generation == (if upgraded then a.generation + 1 else a.generation)
      && s'.nextSequence == (if upgraded then s.nextSequence + 1 else s.nextSequence)
      && s'.queue == (if upgraded
           then s.queue + {QueueEntry(t, b.request.priority, s.nextSequence, b.generation, b.request.score)} else s.queue)
  {
  }

  /** So a call that joins leaves the accounting of active demand, then the join. */
  lemma {:induction false} CoalescedLeaves(c: Config, s: State, r: ScheduleRequest, callback: Option<Callback>)
    requires PendingOk(s) && Considered(s, r) && Joins(s, r)
    ensures Schedule(c, s, r, callback).0
         == Join(Consume(c, s, r), s.pending[r.layer * 0x1_0000_0000 + r.expert], r, callback)
  {
    OutcomeExactly(c, s, r, callback);
    hide Consume, Join, Open, Enqueue;
  }

  // ---- the other client sections ----

  /** An expert found on a tier is ready there, if the table lets it move. */
  function Adopted(table: Table, k: Key, tier: MemoryTier): Table {
    if k in table && (table[k].state == Requested || table[k].state == Ready || table[k].state == Failed)
    then table[k := ExpertState(tier, tier, Ready, table[k].usageCount)] else table
  }

  /** Adoption drops what the scheduler held of the expert, reconciliation does
      not touch an expert it holds; neither touches a pending one. */
  lemma {:induction false} AdoptionLeaves(s: State, k: Key, tier: MemoryTier)
    ensures Acknowledge(s, k, tier) ==
      if k in s.pending then s
      else s.(resident := s.resident - {k}, prefetched := s.prefetched - {k}, experts := Adopted(s.experts, k, tier))
    ensures ReconcileResidency(s, k, tier) ==
      if k in s.pending || k in s.resident then s else s.(experts := Adopted(s.experts, k, tier))
  {
  }

  /** Acquiring puts a ready expert into use and counts it, releasing ends the
      use; of any other expert both leave everything as it was. */
  lemma {:induction false} UseLeaves(c: Config, s: State, k: Key, s': State)
    ensures Next(c, s, AcquireStep(k), s') <==>
      (s' == if k in s.experts && s.experts[k].state == Ready
        then s.(experts := s.experts[k := s.experts[k].(state := InUse, usageCount := s.experts[k].usageCount + 1)])
        else s)
    ensures Next(c, s, ReleaseStep(k), s') <==>
      (s' == if k in s.experts && s.experts[k].state == InUse
        then s.(experts := s.experts[k := s.experts[k].(state := Ready)]) else s)
  {
  }

  /** Shutdown raises its flag and cancels the pending tasks; a second one
      changes nothing. */
  lemma {:induction false} ShutdownLeaves(s: State)
    ensures var s' := BeginShutdown(s);
      if s.stopping then s' == s
      else
        && s' == s.(stopping := true, tasks := s'.tasks) && |s'.tasks| == |s.tasks|
        && forall t | 0 <= t < |s.tasks| ::
             s'.tasks[t] == s.tasks[t].(cancelled := s.tasks[t].cancelled || exists k :: k in s.pending && s.pending[k] == t)
  {
    if !s.stopping {
      forall t | 0 <= t < |s.tasks| ensures t in s.pending.Values <==> exists k :: k in s.pending && s.pending[k] == t {
      }
    }
  }

  // ---- the order of the queue ----

  /** What outranks what: active inference, the next layer's predictions,
      warming, maintenance; then the score; then the age. */
  lemma {:induction false} OrderIs(a: QueueEntry, b: QueueEntry)
    ensures ActiveInference.Rank() > PredictedNextLayer.Rank() > CacheWarming.Rank() > BackgroundMaintenance.Rank()
    ensures a.priority.Rank() != b.priority.Rank() ==> (Better(a, b) <==> a.priority.Rank() > b.priority.Rank())
    ensures a.priority == b.priority && a.score != b.score ==> (Better(a, b) <==> a.score > b.score)
    ensures a.priority == b.priority && a.score == b.score ==> (Better(a, b) <==> a.sequence < b.sequence)
  {
  }
}

/** What an answer tells: success only after the transfer engine reported a
    completed transfer, and failure for a task cancelled in time. */
module SchedulerAnswers {
  import opened Wrappers
  import opened ExpertStates
  import opened SchedulerModel
  import opened SchedulerInvariant
  import opened SchedulerTheorems

  /** A worker reports success only as it did before, or on the engine's word;
      and it clears a task for transfer only if nobody has cancelled it. */
  lemma {:induction false} WorkerReports(c: Config, s: State, step: Step, s': State)
    requires IsWorkerStep(step) && WorkerNext(c, s, step, s') && !step.PopStep?
    ensures |s'.workers| == |s.workers|
    ensures var a, b := s.workers[step.worker], s'.workers[step.worker];
      && Busy(a) && (Busy(b) ==> b.task == a.task)
      && (Succeeding(b) ==> Succeeding(a) || (step.AnswerStep? && step.answer.Completed? && a.Transferring?))
      && (b.Cleared? ==> a.Popped? && a.task < |s.tasks| && !s.tasks[a.task].cancelled)
      && (b.Transferring? ==> a.Cleared?)
  {
    WorkerOwnMove(c, s, step, s');
    hide FireAt, PopResult, BeginTransfer, FinishTransfer, TrimFrom, Store, Complete, Deliver, MakeKey, TaskMoves,
         CommitWith;
    if s.workers[step.worker].Transferring? {
      assert step.AnswerStep?;
    }
    if s.workers[step.worker].Popped? {
      assert step.CheckStep?;
    }
  }

  // ---- success ----

  /** The tasks for which the engine has reported a completed transfer. */
  ghost function Transferred(trace: seq<State>, steps: seq<Step>, i: nat): set<TaskId>
    requires i <= |steps| <= |trace|
  {
    if i == 0 then {}
    else Transferred(trace, steps, i - 1) + ReportedBy(trace[i - 1], steps[i - 1])
  }

  ghost function ReportedBy(s: State, step: Step): set<TaskId> {
    if step.AnswerStep? && step.answer.Completed? && step.worker < |s.workers| && s.workers[step.worker].Transferring?
    then {s.workers[step.worker].task} else {}
  }

  ghost predicate Earned(s: State, done: set<TaskId>) {
    && (forall w | 0 <= w < |s.workers| && Succeeding(s.workers[w]) :: s.workers[w].task in done)
    && (forall t | 0 <= t < |s.tasks| && true in s.tasks[t].answers :: t in done)
  }

  lemma {:induction false} EarnedNext(c: Config, s: State, step: Step, s': State, done: set<TaskId>)
    requires Inv(s) && Next(c, s, step, s') && Earned(s, done)
    ensures Earned(s', done + ReportedBy(s, step))
  {
    assert done + {} == done;
    if step.ScheduleStep? {
      hide Inv, Schedule, Earned, WorkerNext;
      EarnedSchedule(c, s, step.request, step.callback, done);
    } else if step.PopStep? {
      hide Inv, PopResult, Earned, ClientNext;
      EarnedPop(s, step.worker, s', done);
    } else {
      hide Inv, Next, Earned;
      EarnedOther(c, s, step, s', done);
    }
  }

  lemma {:induction false} EarnedPop(s: State, w: nat, s': State, done: set<TaskId>)
    requires w < |s.workers| && PopResult(s, w, s') && Earned(s, done)
    ensures Earned(s', done)
  {
    PopTaskMoves(s, w, s');
    hide PopResult;
  }

  lemma {:induction false} EarnedOther(c: Config, s: State, step: Step, s': State, done: set<TaskId>)
    requires Next(c, s, step, s') && Earned(s, done) && !step.ScheduleStep? && !step.PopStep?
    ensures Earned(s', done + ReportedBy(s, step))
  {
    hide ClientNext, WorkerNext;
    StepTaskMoves(c, s, step, s');
    if IsWorkerStep(step) {
      WorkerIsPlaced(c, s, step, s');
      WorkerReports(c, s, step, s');
    }
    hide Next;
    forall t | 0 <= t < |s.tasks| && true in s'.tasks[t].answers
      ensures t in done
    {
      assert TaskMoves(s, step, t, s.tasks[t], s'.tasks[t]);
    }
  }

  lemma {:induction false} EarnedSchedule(c: Config, s: State, r: ScheduleRequest, callback: Option<Callback>,
                                          done: set<TaskId>)
    requires Inv(s) && Earned(s, done)
    ensures Earned(Schedule(c, s, r, callback).0, done)
  {
    OpenPending(s);
    hide Inv, Schedule, PendingOk, TaskJoined;
    ScheduleTaskMoves(c, s, r, callback);
    var s' := Schedule(c, s, r, callback).0;
    forall t | 0 <= t < |s.tasks| ensures s'.tasks[t].answers == s.tasks[t].answers {
      JoinedKeeps(s.tasks[t], s'.tasks[t]);
    }
  }

  /** On every run a task is answered with success only if the engine reported
      its transfer completed. */
  lemma {:induction false} SuccessIsEarned(c: Config, workerCount: nat, trace: seq<State>, steps: seq<Step>, i: nat)
    requires IsRun(c, workerCount, trace, steps) && i < |trace|
    ensures Earned(trace[i], Transferred(trace, steps, i))
  {
    if i == 0 {
      hide Next;
    } else {
      hide Next, Earned, Inv;
      SuccessIsEarned(c, workerCount, trace, steps, i - 1);
      RunKeeps(c, workerCount, trace, steps, i - 1);
      EarnedNext(c, trace[i - 1], steps[i - 1], trace[i], Transferred(trace, steps, i - 1));
    }
  }

  // ---- what the sections leave ----

  /** The expert of a worker's task, and what the section did to it. */
  ghost predicate OnlyExpert(s: State, s': State, k: Key, e: ExpertState) {
    k in s.experts && s'.experts == s.experts[k := e]
  }

  /** Loading begins: the expert is marked, an eviction's stays as it is. */
  lemma {:induction false} BeginLeaves(c: Config, s: State, w: nat, s': State)
    requires Inv(s) && Next(c, s, BeginTransferStep(w), s')
    ensures var t := s.workers[w].task;
      t < |s.tasks| &&
      var r, k := s.tasks[t].request, s.tasks[t].request.layer * 0x1_0000_0000 + s.tasks[t].request.expert;
      && k in s.experts && OnlyExpert(s, s', k, if r.eviction then s.experts[k] else s.experts[k].(state := Loading))
      && s' == s.(experts := s'.experts, workers := s.workers[w := Transferring(t)])
  {
    hide Inv, PopResult, CheckCancelled, TakeAnswer, FinishTransfer, CommitWith, Complete, Deliver;
    StepIsBusy(c, s, BeginTransferStep(w), s');
    OwnedShows(s, w);
  }

  /** The transfer has ended well: the expert is ready, and lies where the
      request wanted it. */
  lemma {:induction false} MarkReadyLeaves(c: Config, s: State, w: nat, s': State)
    requires Inv(s) && Next(c, s, MarkReadyStep(w), s')
    ensures var t := s.workers[w].task;
      t < |s.tasks| &&
      var r, k := s.tasks[t].request, s.tasks[t].request.layer * 0x1_0000_0000 + s.tasks[t].request.expert;
      && s.workers[w].Answered? && k in s.experts
      && OnlyExpert(s, s', k, ExpertState(r.destination, r.destination, Ready, s.experts[k].usageCount))
      && s' == s.(experts := s'.experts, workers := s.workers[w := Readied(t, s.workers[w].transfer)])
  {
    hide Inv, PopResult, CheckCancelled, BeginTransfer, TakeAnswer, CommitWith, Complete, Deliver;
    StepIsBusy(c, s, MarkReadyStep(w), s');
    OwnedShows(s, w);
  }

  /** The worker's check: a cancelled task fails, any other is cleared. */
  lemma {:induction false} CheckLeaves(c: Config, s: State, w: nat, s': State)
    requires Next(c, s, CheckStep(w), s')
    ensures var t := s.workers[w].task;
      && s.workers[w].Popped? && t < |s.tasks|
      && s' == s.(workers := s.workers[w := if s.tasks[t].cancelled then Failing(t, CancelledEarly) else Cleared(t)])
  {
  }

  /** A completed transfer is kept for the commit; any other answer fails the
      task. */
  lemma {:induction false} AnswerLeaves(c: Config, s: State, w: nat, answer: TransferAnswer, s': State)
    requires Next(c, s, AnswerStep(w, answer), s')
    ensures |s'.workers| == |s.workers| && s' == s.(workers := s.workers[w := s'.workers[w]])
    ensures answer.Completed? ==> s'.workers[w] == Answered(s.workers[w].task, answer.transfer)
    ensures !answer.Completed? ==> s'.workers[w].Failing? && s'.workers[w].task == s.workers[w].task
  {
  }

  /** Delivery runs the next callback, and after the last one answers: with
      success for a committed task, with failure for a failed one. */
  lemma {:induction false} DeliverLeaves(c: Config, s: State, w: nat, s': State)
    requires Next(c, s, DeliverStep(w), s')
    ensures s.workers[w].Delivering? && s.workers[w].task < |s.tasks|
    ensures var t, success := s.workers[w].task, s.workers[w].success;
      var task := s.tasks[t];
      if |task.ran| < |task.callbacks|
      then s' == s.(tasks := s.tasks[t := task.(ran := task.ran + [task.callbacks[|task.ran|]])])
      else s' == s.(tasks := s.tasks[t := task.(answers := task.answers + [success])], workers := s.workers[w := Idle])
  {
  }

  /** A failed task fails its expert, wherever that stands. */
  lemma {:induction false} MarkFailedLeaves(c: Config, s: State, w: nat, s': State)
    requires Next(c, s, MarkFailedStep(w), s')
    ensures var t := s.workers[w].task;
      t < |s.tasks| &&
      var k := s.tasks[t].request.layer * 0x1_0000_0000 + s.tasks[t].request.expert;
      && k in s.experts && OnlyExpert(s, s', k, s.experts[k].(state := Failed))
      && s' == s.(experts := s'.experts, workers := s.workers[w := MarkedFailed(t)])
  {
  }

  /** A plain commit stores the payload, or for NVMe drops the one held. */
  lemma {:induction false} PlainCommitLeaves(c: Config, s: State, w: nat, candidates: seq<Key>, s': State)
    requires Next(c, s, CommitStep(w, candidates), s')
    requires var task := s.tasks[s.workers[w].task]; !task.prefetchRequest || task.activeConsumer
    ensures var t := s.workers[w].task;
      var r, k := s.tasks[t].request, s.tasks[t].request.layer * 0x1_0000_0000 + s.tasks[t].request.expert;
      s' == s.(resident := if r.destination == Nvme then s.resident - {k} else s.resident[k := s.workers[w].transfer],
               workers := s.workers[w := Committed(t)])
  {
    hide TrimFrom;
  }

  /** Completion: the task is done and its expert is free for another. */
  lemma {:induction false} CompleteLeaves(c: Config, s: State, w: nat, s': State)
    requires Inv(s) && Next(c, s, CompleteStep(w), s')
    ensures var t := s.workers[w].task;
      t < |s.tasks| &&
      var k := s.tasks[t].request.layer * 0x1_0000_0000 + s.tasks[t].request.expert;
      s' == s.(tasks := s.tasks[t := s.tasks[t].(completed := true)], pending := s.pending - {k},
               workers := s.workers[w := Delivering(t, s.workers[w].Committed?)])
  {
    hide Inv, PopResult, CheckCancelled, BeginTransfer, TakeAnswer, FinishTransfer, CommitWith, Deliver;
    StepIsBusy(c, s, CompleteStep(w), s');
    OwnedShows(s, w);
  }

  // ---- cancellation ----

  /** Cancelled before its worker has looked at the flag. */
  ghost predicate CancelledInTime(s: State, t: TaskId) {
    && t < |s.tasks| && s.tasks[t].cancelled && !s.tasks[t].completed
    && forall w | 0 <= w < |s.workers| && Busy(s.workers[w]) && s.workers[w].task == t :: s.workers[w].Popped?
  }

  /** Nothing is transferred for the task, and its answer, if any, is failure. */
  ghost predicate Barred(s: State, t: TaskId) {
    && t < |s.tasks| && s.tasks[t].cancelled && (s.tasks[t].answers == [] || s.tasks[t].answers == [false])
    && forall w | 0 <= w < |s.workers| && Busy(s.workers[w]) && s.workers[w].task == t ::
         !s.workers[w].Cleared? && !s.workers[w].Transferring? && !Succeeding(s.workers[w])
  }

  lemma {:induction false} BarredNext(c: Config, s: State, step: Step, s': State, t: TaskId)
    requires Inv(s) && Next(c, s, step, s') && Barred(s, t)
    ensures Barred(s', t)
  {
    if step.ScheduleStep? {
      hide Inv, Schedule, Barred, WorkerNext;
      BarredSchedule(c, s, step.request, step.callback, t);
    } else if step.PopStep? {
      hide Inv, PopResult, Barred, ClientNext;
      BarredPop(s, step.worker, s', t);
    } else {
      hide Next, Barred;
      BarredOther(c, s, step, s', t);
    }
  }

  lemma {:induction false} BarredSchedule(c: Config, s: State, r: ScheduleRequest, callback: Option<Callback>, t: TaskId)
    requires Inv(s) && Barred(s, t)
    ensures Barred(Schedule(c, s, r, callback).0, t)
  {
    OpenPending(s);
    hide Inv, Schedule, PendingOk;
    ScheduleTaskMoves(c, s, r, callback);
    assert TaskJoined(s.tasks[t], Schedule(c, s, r, callback).0.tasks[t]);
  }

  lemma {:induction false} BarredPop(s: State, w: nat, s': State, t: TaskId)
    requires w < |s.workers| && PopResult(s, w, s') && Barred(s, t)
    ensures Barred(s', t)
  {
    PopTaskMoves(s, w, s');
    PopShape(s, w, s');
    hide PopResult;
  }

  lemma {:induction false} BarredOther(c: Config, s: State, step: Step, s': State, t: TaskId)
    requires Inv(s) && Next(c, s, step, s') && Barred(s, t) && !step.ScheduleStep? && !step.PopStep?
    ensures Barred(s', t)
  {
    hide ClientNext, WorkerNext;
    HistoryOnlyGrows(c, s, step, s', t);
    StepTaskMoves(c, s, step, s');
    if IsWorkerStep(step) {
      WorkerIsPlaced(c, s, step, s');
      WorkerReports(c, s, step, s');
    }
    hide Next, Inv;
    assert TaskMoves(s, step, t, s.tasks[t], s'.tasks[t]);
  }

  lemma {:induction false} PopShape(s: State, w: nat, s': State)
    requires w < |s.workers| && PopResult(s, w, s')
    ensures |s'.workers| == |s.workers| && (Busy(s'.workers[w]) ==> s'.workers[w].Popped?)
  {
  }

  /** A task cancelled before its worker's check is never transferred, and no
      answer of it is success, on any continuation. */
  lemma {:induction false} CancelledInTimeFails(c: Config, workerCount: nat, trace: seq<State>, steps: seq<Step>,
                                                i: nat, j: nat, t: TaskId)
    requires IsRun(c, workerCount, trace, steps) && i <= j < |trace| && CancelledInTime(trace[i], t)
    ensures Barred(trace[j], t)
  {
    hide Next, Barred, Inv, CancelledInTime;
    RunKeeps(c, workerCount, trace, steps, if i < j then j - 1 else i);
    if i < j {
      CancelledInTimeFails(c, workerCount, trace, steps, i, j - 1, t);
      BarredNext(c, trace[j - 1], steps[j - 1], trace[j], t);
    } else {
      InTimeIsBarred(trace[i], t);
    }
  }

  lemma {:induction false} InTimeIsBarred(s: State, t: TaskId)
    requires Inv(s) && CancelledInTime(s, t)
    ensures Barred(s, t)
  {
    assert !UnderDelivery(t, s.tasks[t], s.workers);
    assert Settled(s.tasks[t]);
  }
}
