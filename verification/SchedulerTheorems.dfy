/**
What every run of the scheduler guarantees, and what it does not.
 */
module SchedulerTheorems {
  import opened Wrappers
  import opened ExpertStates
  import opened SchedulerModel
  import opened SchedulerInvariant

  /** The states that some run passes through. */
  ghost predicate Reachable(c: Config, workerCount: nat, s: State) {
    exists trace, steps | IsRun(c, workerCount, trace, steps) :: trace[|trace| - 1] == s
  }

  lemma {:induction false} ReachableInv(c: Config, workerCount: nat, s: State)
    requires Reachable(c, workerCount, s)
    ensures Inv(s)
  {
    var trace, steps :| IsRun(c, workerCount, trace, steps) && trace[|trace| - 1] == s;
    RunKeeps(c, workerCount, trace, steps, |trace| - 1);
  }

  lemma {:induction false} ReachableStart(c: Config, workerCount: nat)
    ensures Reachable(c, workerCount, Initial(workerCount))
  {
    assert IsRun(c, workerCount, [Initial(workerCount)], []);
    assert [Initial(workerCount)][0] == Initial(workerCount);
  }

  /** A run leads from one state to the other. */
  ghost predicate RunsTo(c: Config, s: State, final: State) {
    exists trace, steps :: IsPath(c, trace, steps) && trace[0] == s && trace[|trace| - 1] == final
  }

  ghost predicate IsPath(c: Config, trace: seq<State>, steps: seq<Step>) {
    && |trace| == |steps| + 1
    && forall i | 0 <= i < |steps| :: Next(c, trace[i], steps[i], trace[i + 1])
  }

  lemma {:induction false} RunsToItself(c: Config, s: State)
    ensures RunsTo(c, s, s)
  {
    assert IsPath(c, [s], []) && [s][0] == s;
  }

  lemma {:induction false} RunsToLonger(c: Config, s: State, step: Step, s': State, final: State)
    requires Next(c, s, step, s') && RunsTo(c, s', final)
    ensures RunsTo(c, s, final)
  {
    hide Next;
    var trace, steps :| IsPath(c, trace, steps) && trace[0] == s' && trace[|trace| - 1] == final;
    var trace', steps' := [s] + trace, [step] + steps;
    forall i | 0 <= i < |steps'|
      ensures Next(c, trace'[i], steps'[i], trace'[i + 1])
    {
      if i > 0 {
        assert Next(c, trace[i - 1], steps[i - 1], trace[i]);
      }
    }
    assert IsPath(c, trace', steps');
  }

  /** What a reachable state leads to is reachable. */
  lemma {:induction false} ReachableRunsTo(c: Config, workerCount: nat, s: State, trace: seq<State>, steps: seq<Step>,
                                           i: nat)
    requires Reachable(c, workerCount, s) && IsPath(c, trace, steps) && trace[0] == s && i < |trace|
    ensures Reachable(c, workerCount, trace[i])
  {
    hide Next, Reachable;
    if i > 0 {
      ReachableRunsTo(c, workerCount, s, trace, steps, i - 1);
      ReachableNext(c, workerCount, trace[i - 1], steps[i - 1], trace[i]);
    }
  }

  lemma {:induction false} ReachableNext(c: Config, workerCount: nat, s: State, step: Step, s': State)
    requires Reachable(c, workerCount, s) && Next(c, s, step, s')
    ensures Reachable(c, workerCount, s')
  {
    var trace, steps :| IsRun(c, workerCount, trace, steps) && trace[|trace| - 1] == s;
    var trace', steps' := trace + [s'], steps + [step];
    forall i | 0 <= i < |steps'|
      ensures Next(c, trace'[i], steps'[i], trace'[i + 1])
    {
      if i < |steps| {
        assert Next(c, trace[i], steps[i], trace[i + 1]);
      }
    }
    assert IsRun(c, workerCount, trace', steps');
  }

  // ---- the lifecycle guards ----

  /** On every interleaving a worker about to load finds its expert Queued, and
      after the transfer finds it Loading; an eviction finds it Evicting both
      times. Hence neither guard ever refuses. */
  lemma {:induction false} GuardsNeverRefuse(c: Config, workerCount: nat, s: State, w: nat)
    requires Reachable(c, workerCount, s)
    requires w < |s.workers| && (s.workers[w].Cleared? || s.workers[w].Answered?)
    ensures s.workers[w].task < |s.tasks|
    ensures var r := s.tasks[s.workers[w].task].request;
      && r.Key() in s.experts
      && s.experts[r.Key()].state ==
           (if r.eviction then Evicting else if s.workers[w].Cleared? then Queued else Loading)
    ensures s.workers[w].Cleared? ==> BeginTransfer(s, w, s.workers[w].task).Some?
    ensures s.workers[w].Answered? ==>
      FinishTransfer(s, w, s.workers[w].task, s.workers[w].transfer).workers[w].Readied?
  {
    hide MakeKey, TableOk, OwnersOk, QueueOk, LifecycleOk, DeliveryOk, CancelledOk, ExitsOk, Reachable;
    ReachableInv(c, workerCount, s);
    OwnedShows(s, w);
  }

  // ---- the queue ----

  /** The updatable priority queue the heap stands for: each task that no
      worker has started, with its current priority, score and age. */
  ghost function WaitingTasks(s: State): map<TaskId, QueueEntry> {
    map t | 0 <= t < |s.tasks| && !s.tasks[t].started :: Newest(t, s.tasks[t])
  }

  ghost predicate IsFirst(waiting: map<TaskId, QueueEntry>, t: TaskId) {
    t in waiting && forall u | u in waiting && u != t :: Better(waiting[t], waiting[u])
  }

  /** Whatever stale entries lie in the heap, a pop takes the maximum of the
      abstract queue, and takes nothing only when that queue is empty. */
  lemma {:induction false} PopTakesFirst(s: State, w: nat, s': State)
    requires QueueOk(s.tasks, s.queue, s.nextSequence) && w < |s.workers| && PopResult(s, w, s')
    requires forall t | 0 <= t < |s.tasks| && s.tasks[t].completed :: s.tasks[t].started
    ensures if WaitingTasks(s) == map[]
      then WaitingTasks(s') == map[] && !s'.workers[w].Popped?
      else s'.workers[w].Popped? && IsFirst(WaitingTasks(s), s'.workers[w].task)
           && WaitingTasks(s') == WaitingTasks(s) - {s'.workers[w].task}
  {
    hide WaitingTasks, QueueOk;
    var live := set e | e in s.queue && Live(s, e);
    WaitingIsLive(s);
    if WaitingTasks(s) != map[] {
      var t :| t in WaitingTasks(s);
      assert WaitingTasks(s)[t] in live;
    }
    if live != {} {
      var e :| e in live;
      assert e.task in WaitingTasks(s);
    }
    if live == {} {
      SameWaiting(s, s');
    } else {
      var e :| IsBest(e, live) &&
        s' == s.(queue := (set x | x in s.queue && Better(e, x)),
                 tasks := s.tasks[e.task := s.tasks[e.task].(started := true, owner := w)],
                 workers := s.workers[w := Popped(e.task)]);
      BestIsFirst(s, e);
      StartedLeaves(s, s', e.task);
    }
  }

  lemma {:induction false} StartedLeaves(s: State, s': State, t: TaskId)
    requires t < |s.tasks| && exists w :: s'.tasks == s.tasks[t := s.tasks[t].(started := true, owner := w)]
    ensures WaitingTasks(s') == WaitingTasks(s) - {t}
  {
  }

  /** The live entries of the heap are exactly the entries of the abstract queue. */
  lemma {:induction false} WaitingIsLive(s: State)
    requires QueueOk(s.tasks, s.queue, s.nextSequence)
    requires forall t | 0 <= t < |s.tasks| && s.tasks[t].completed :: s.tasks[t].started
    ensures forall t | t in WaitingTasks(s) :: WaitingTasks(s)[t] in s.queue && Live(s, WaitingTasks(s)[t])
    ensures forall e | e in s.queue && Live(s, e) :: e.task in WaitingTasks(s) && WaitingTasks(s)[e.task] == e
  {
    forall t | t in WaitingTasks(s)
      ensures WaitingTasks(s)[t] in s.queue && Live(s, WaitingTasks(s)[t])
    {
      assert Newest(t, s.tasks[t]) in s.queue;
    }
    assert forall e | e in s.queue :: EntryOk(s.tasks, e);
  }

  lemma {:induction false} BestIsFirst(s: State, e: QueueEntry)
    requires QueueOk(s.tasks, s.queue, s.nextSequence)
    requires forall t | 0 <= t < |s.tasks| && s.tasks[t].completed :: s.tasks[t].started
    requires IsBest(e, set x | x in s.queue && Live(s, x))
    ensures IsFirst(WaitingTasks(s), e.task)
  {
    var live := set x | x in s.queue && Live(s, x);
    WaitingIsLive(s);
    assert e in live;
    forall u | u in WaitingTasks(s) && u != e.task
      ensures Better(WaitingTasks(s)[e.task], WaitingTasks(s)[u])
    {
      assert WaitingTasks(s)[u] in live;
    }
  }

  /** The entry of a joined task: raised when the call has the higher priority,
      or the better score at equal priority; otherwise as it was. */
  function Raised(entry: QueueEntry, r: ScheduleRequest, sequence: nat): QueueEntry {
    var score := if r.score > entry.score then r.score else entry.score;
    if r.priority.Rank() > entry.priority.Rank() then
      QueueEntry(entry.task, r.priority, sequence, entry.generation + 1, score)
    else if r.priority == entry.priority && r.score > entry.score then
      QueueEntry(entry.task, entry.priority, sequence, entry.generation + 1, score)
    else entry
  }

  /** What a scheduling call does to the abstract queue: a new task is
      inserted, a joined one that still waits is raised, all else stays. */
  ghost predicate QueueAfterSchedule(s: State, r: ScheduleRequest, outcome: ScheduleOutcome, s': State) {
    match outcome
    case Accepted(t) =>
      && t !in WaitingTasks(s)
      && WaitingTasks(s') == WaitingTasks(s)[t := QueueEntry(t, r.priority, s.nextSequence, 0, r.score)]
    case Coalesced(t) =>
      WaitingTasks(s') ==
        if t in WaitingTasks(s) then WaitingTasks(s)[t := Raised(WaitingTasks(s)[t], r, s.nextSequence)]
        else WaitingTasks(s)
    case _ => WaitingTasks(s') == WaitingTasks(s)
  }

  lemma {:induction false} SameWaiting(s: State, s': State)
    requires |s'.tasks| == |s.tasks|
    requires forall t | 0 <= t < |s.tasks| ::
      s'.tasks[t].started == s.tasks[t].started && Newest(t, s'.tasks[t]) == Newest(t, s.tasks[t])
    ensures WaitingTasks(s') == WaitingTasks(s)
  {
  }

  lemma {:induction false} ConsumeKeepsQueue(c: Config, s: State, r: ScheduleRequest)
    requires PendingOk(s) && r.Key() in s.experts
    ensures WaitingTasks(Consume(c, s, r)) == WaitingTasks(s)
    ensures Consume(c, s, r).nextSequence == s.nextSequence && |Consume(c, s, r).tasks| == |s.tasks|
  {
    SameWaiting(s, Consume(c, s, r));
  }

  lemma {:induction false} JoinRaises(s: State, t: TaskId, r: ScheduleRequest, callback: Option<Callback>)
    requires t < |s.tasks|
    ensures WaitingTasks(Join(s, t, r, callback)) ==
      if t in WaitingTasks(s) then WaitingTasks(s)[t := Raised(WaitingTasks(s)[t], r, s.nextSequence)]
      else WaitingTasks(s)
  {
    hide MakeKey;
    var s' := Join(s, t, r, callback);
    assert s'.tasks == s.tasks[t := s'.tasks[t]];
    if s.tasks[t].started {
      SameWaiting(s, s');
    } else {
      assert Newest(t, s'.tasks[t]) == Raised(Newest(t, s.tasks[t]), r, s.nextSequence);
    }
  }

  lemma {:induction false} ScheduleUpdatesQueue(c: Config, s: State, r: ScheduleRequest, callback: Option<Callback>)
    requires PendingOk(s)
    ensures QueueAfterSchedule(s, r, Schedule(c, s, r, callback).1, Schedule(c, s, r, callback).0)
  {
    hide FireAt, MakeKey, Join, AlreadyThere, Open, Consume, Enqueue, WaitingTasks, NewTask, Upgrades, JoinedTask;
    if s.stopping || r.Key() !in s.experts {
      return;
    }
    ConsumeKeepsQueue(c, s, r);
    var s1 := Consume(c, s, r);
    var (s', outcome) := Schedule(c, s, r, callback);
    match outcome
    case Accepted(t) =>
      EnqueueWaits(s1, s'.experts, r, callback);
      assert s' == Enqueue(s1, s'.experts, r, callback) by {
        EnqueueTable(s1, Open(s.experts, r).value, r, callback);
      }
    case Coalesced(t) =>
      JoinRaises(s1, t, r, callback);
    case _ =>
      assert s'.tasks == s1.tasks;
      SameWaiting(s1, s');
  }

  lemma {:induction false} EnqueueTable(s: State, table: Table, r: ScheduleRequest, callback: Option<Callback>)
    ensures Enqueue(s, table, r, callback).experts == table
  {
  }

  lemma {:induction false} EnqueueWaits(s: State, table: Table, r: ScheduleRequest, callback: Option<Callback>)
    ensures |s.tasks| !in WaitingTasks(s)
    ensures WaitingTasks(Enqueue(s, table, r, callback))
         == WaitingTasks(s)[|s.tasks| := QueueEntry(|s.tasks|, r.priority, s.nextSequence, 0, r.score)]
  {
  }

  lemma {:induction false} ExpireKeepsTasks(s: State, layer: Id32, order: seq<Key>)
    ensures var s' := ExpireFrom(s, layer, order).0;
      s' == s.(experts := s'.experts, resident := s'.resident, prefetched := s'.prefetched)
    decreases |order|
  {
    if order != [] {
      if KeyLayer(order[0]) >= layer {
        ExpireKeepsTasks(s, layer, order[1..]);
      } else if FireAt(s.experts, order[0], Reconcile(Nvme)).Some? {
        var next := s.(resident := s.resident - {order[0]},
                       experts := FireAt(s.experts, order[0], Reconcile(Nvme)).value,
                       prefetched := s.prefetched - {order[0]});
        ExpireKeepsTasks(next, layer, order[1..]);
      }
    }
  }

  /** What a step other than scheduling and popping may do to a task. */
  ghost predicate TaskMoves(s: State, step: Step, t: TaskId, a: Task, b: Task) {
    var mine := IsWorkerStep(step) && step.worker < |s.workers| && Busy(s.workers[step.worker])
                && s.workers[step.worker].task == t;
    && b == a.(cancelled := b.cancelled, completed := b.completed, ran := b.ran, answers := b.answers)
    && (a.cancelled ==> b.cancelled)
    && (b.completed == a.completed || (mine && step.CompleteStep? && b.completed))
    && ((b.ran == a.ran && b.answers == a.answers)
        || (mine && step.DeliverStep? && s.workers[step.worker].Delivering?
            && if |a.ran| < |a.callbacks| then b.ran == a.ran + [a.callbacks[|a.ran|]] && b.answers == a.answers
               else b.ran == a.ran && b.answers == a.answers + [s.workers[step.worker].success]))
  }

  lemma {:induction false} ClientTaskMoves(c: Config, s: State, step: Step, s': State)
    requires !IsWorkerStep(step) && ClientNext(c, s, step, s') && !step.ScheduleStep?
    ensures |s'.tasks| == |s.tasks| && s'.workers == s.workers
    ensures forall t | 0 <= t < |s.tasks| :: TaskMoves(s, step, t, s.tasks[t], s'.tasks[t])
  {
    hide FireAt, MakeKey, Schedule, ExpireFrom, TaskMoves;
    forall t | 0 <= t < |s.tasks|
      ensures TaskMoves(s, step, t, s.tasks[t], s.tasks[t])
      ensures TaskMoves(s, step, t, s.tasks[t], s.tasks[t].(cancelled := true))
    {
      FlagMoves(s, step, t, s.tasks[t]);
    }
    if step.ExpireStep? {
      ExpireKeepsTasks(s, step.layer, step.order);
    }
  }

  lemma {:induction false} FlagMoves(s: State, step: Step, t: TaskId, a: Task)
    ensures TaskMoves(s, step, t, a, a) && TaskMoves(s, step, t, a, a.(cancelled := true))
  {
  }

  /** The moves of a worker through its loop, between popping and idling. */
  predicate Follows(a: Worker, b: Worker) {
    match a
    case Popped(t) => b == Cleared(t) || b == Failing(t, CancelledEarly)
    case Cleared(t) => b == Transferring(t)
    case Transferring(t) =>
      (b.Answered? && b.task == t) || b == Failing(t, TransferCancelled) || b == Failing(t, TransferFailed)
    case Answered(t, transfer) => b == Readied(t, transfer) || b == Failing(t, GuardRefused)
    case Readied(t, _) => b == Committed(t) || b == Failing(t, CommitAborted)
    case Committed(t) => b == Delivering(t, true)
    case Failing(t, _) => b == MarkedFailed(t)
    case MarkedFailed(t) => b == Delivering(t, false)
    case Delivering(_, _) => b == a || b == Idle
    case _ => false
  }

  /** A worker section moves its own worker and touches its own task only. */
  ghost predicate OwnMove(s: State, step: Step, s': State)
    requires IsWorkerStep(step) && step.worker < |s.workers|
    requires Busy(s.workers[step.worker]) && s.workers[step.worker].task < |s.tasks|
  {
    var w := step.worker;
    var t := s.workers[w].task;
    && s'.queue == s.queue && s'.stopping == s.stopping
    && |s'.workers| == |s.workers| && s'.workers == s.workers[w := s'.workers[w]]
    && Follows(s.workers[w], s'.workers[w])
    && |s'.tasks| == |s.tasks| && s'.tasks == s.tasks[t := s'.tasks[t]]
    && TaskMoves(s, step, t, s.tasks[t], s'.tasks[t])
  }

  /** A section that moves nothing but its worker's place in the loop, and
      perhaps the lifecycle table and the payloads. */
  ghost predicate Quiet(s: State, w: nat, s': State)
    requires w < |s.workers|
  {
    && s'.queue == s.queue && s'.stopping == s.stopping && s'.tasks == s.tasks
    && |s'.workers| == |s.workers| && s'.workers == s.workers[w := s'.workers[w]]
    && Follows(s.workers[w], s'.workers[w])
  }

  lemma {:induction false} QuietIsOwnMove(s: State, step: Step, s': State)
    requires IsWorkerStep(step) && step.worker < |s.workers|
    requires Busy(s.workers[step.worker]) && s.workers[step.worker].task < |s.tasks|
    requires Quiet(s, step.worker, s')
    ensures OwnMove(s, step, s')
  {
    var t := s.workers[step.worker].task;
    assert s.tasks == s.tasks[t := s.tasks[t]];
    FlagMoves(s, step, t, s.tasks[t]);
    hide TaskMoves;
  }

  lemma {:induction false} CheckIsQuiet(s: State, w: nat, t: TaskId)
    requires w < |s.workers| && t < |s.tasks| && s.workers[w] == Popped(t)
    ensures Quiet(s, w, CheckCancelled(s, w, t))
  {
  }

  lemma {:induction false} BeginIsQuiet(s: State, w: nat, t: TaskId)
    requires w < |s.workers| && t < |s.tasks| && s.workers[w] == Cleared(t) && BeginTransfer(s, w, t).Some?
    ensures Quiet(s, w, BeginTransfer(s, w, t).value)
  {
    hide FireAt, MakeKey;
  }

  lemma {:induction false} AnswerIsQuiet(s: State, w: nat, t: TaskId, a: TransferAnswer)
    requires w < |s.workers| && s.workers[w] == Transferring(t)
    ensures Quiet(s, w, TakeAnswer(s, w, t, a))
  {
  }

  lemma {:induction false} FinishIsQuiet(s: State, w: nat, t: TaskId, transfer: Transfer)
    requires w < |s.workers| && t < |s.tasks| && s.workers[w] == Answered(t, transfer)
    ensures Quiet(s, w, FinishTransfer(s, w, t, transfer))
  {
    hide FireAt, MakeKey;
  }

  lemma {:induction false} CommitIsQuiet(c: Config, s: State, w: nat, t: TaskId, transfer: Transfer,
                                         candidates: seq<Key>)
    requires w < |s.workers| && t < |s.tasks| && s.workers[w] == Readied(t, transfer)
    ensures Quiet(s, w, CommitWith(c, s, w, t, transfer, candidates))
  {
    hide TrimFrom, Store, MakeKey;
  }

  lemma {:induction false} MarkIsQuiet(s: State, w: nat, t: TaskId, table: Table)
    requires w < |s.workers| && s.workers[w].Failing? && s.workers[w].task == t
    ensures Quiet(s, w, s.(experts := table, workers := s.workers[w := MarkedFailed(t)]))
  {
  }

  lemma {:induction false} QuietOwnMove(c: Config, s: State, step: Step, s': State)
    requires IsWorkerStep(step) && WorkerNext(c, s, step, s')
    requires !step.PopStep? && !step.CompleteStep? && !step.DeliverStep?
    ensures OwnMove(s, step, s')
  {
    hide PopResult, Complete, Deliver, FireAt, MakeKey, Quiet, OwnMove, CheckCancelled, BeginTransfer, TakeAnswer,
         FinishTransfer, CommitWith;
    var w := step.worker;
    var t := s.workers[w].task;
    match step {
      case CheckStep(_) => CheckIsQuiet(s, w, t);
      case BeginTransferStep(_) => BeginIsQuiet(s, w, t);
      case AnswerStep(_, answer) => AnswerIsQuiet(s, w, t, answer);
      case MarkReadyStep(_) => FinishIsQuiet(s, w, t, s.workers[w].transfer);
      case CommitStep(_, candidates) => CommitIsQuiet(c, s, w, t, s.workers[w].transfer, candidates);
      case MarkFailedStep(_) => MarkIsQuiet(s, w, t, s'.experts);
    }
    QuietIsOwnMove(s, step, s');
  }

  lemma {:induction false} CompleteOwnMove(c: Config, s: State, w: nat, s': State)
    requires WorkerNext(c, s, CompleteStep(w), s')
    ensures OwnMove(s, CompleteStep(w), s')
  {
  }

  lemma {:induction false} DeliverOwnMove(c: Config, s: State, w: nat, s': State)
    requires WorkerNext(c, s, DeliverStep(w), s')
    ensures OwnMove(s, DeliverStep(w), s')
    ensures s'.workers[w] == s.workers[w] ==>
      var t := s.workers[w].task; |s.tasks[t].ran| < |s.tasks[t].callbacks| && |s'.tasks[t].ran| == |s.tasks[t].ran| + 1
  {
    hide BeginTransfer, FinishTransfer, CommitWith, TakeAnswer, PopResult, CheckCancelled, Complete, FireAt, MakeKey;
    assert s.workers == s.workers[w := s.workers[w]];
  }

  lemma {:induction false} WorkerOwnMove(c: Config, s: State, step: Step, s': State)
    requires IsWorkerStep(step) && WorkerNext(c, s, step, s') && !step.PopStep?
    ensures OwnMove(s, step, s')
  {
    match step
    case CompleteStep(w) => CompleteOwnMove(c, s, w, s');
    case DeliverStep(w) => DeliverOwnMove(c, s, w, s');
    case _ => QuietOwnMove(c, s, step, s');
  }

  lemma {:induction false} WorkerTaskMoves(s: State, step: Step, s': State)
    requires IsWorkerStep(step) && step.worker < |s.workers|
    requires Busy(s.workers[step.worker]) && s.workers[step.worker].task < |s.tasks|
    requires OwnMove(s, step, s')
    ensures forall t | 0 <= t < |s.tasks| :: TaskMoves(s, step, t, s.tasks[t], s'.tasks[t])
  {
    forall t | 0 <= t < |s.tasks|
      ensures TaskMoves(s, step, t, s.tasks[t], s'.tasks[t])
    {
      if t != s.workers[step.worker].task {
        assert s'.tasks[t] == s.tasks[t];
      }
    }
  }

  lemma {:induction false} StepTaskMoves(c: Config, s: State, step: Step, s': State)
    requires Next(c, s, step, s') && !step.PopStep? && !step.ScheduleStep?
    ensures |s'.tasks| == |s.tasks|
    ensures |s'.workers| == |s.workers|
    ensures forall w | 0 <= w < |s.workers| :: s'.workers[w] == s.workers[w] || (IsWorkerStep(step) && step.worker == w)
    ensures forall t | 0 <= t < |s.tasks| :: TaskMoves(s, step, t, s.tasks[t], s'.tasks[t])
  {
    if IsWorkerStep(step) {
      WorkerOwnMove(c, s, step, s');
      WorkerTaskMoves(s, step, s');
    } else {
      ClientTaskMoves(c, s, step, s');
    }
  }

  /** No step other than scheduling and popping moves the abstract queue. */
  lemma {:induction false} OtherStepsKeepQueue(c: Config, s: State, step: Step, s': State)
    requires Next(c, s, step, s')
    requires !step.PopStep? && !step.ScheduleStep?
    ensures WaitingTasks(s') == WaitingTasks(s)
  {
    StepTaskMoves(c, s, step, s');
    forall t | 0 <= t < |s.tasks|
      ensures s'.tasks[t].started == s.tasks[t].started && Newest(t, s'.tasks[t]) == Newest(t, s.tasks[t])
    {
      assert TaskMoves(s, step, t, s.tasks[t], s'.tasks[t]);
    }
    SameWaiting(s, s');
  }

  /** What scheduling may do to a task that exists already. */
  ghost predicate TaskJoined(a: Task, b: Task) {
    && b == a.(request := b.request, callbacks := b.callbacks, generation := b.generation, newest := b.newest,
               activeConsumer := b.activeConsumer)
    && b.request == a.request.(priority := b.request.priority, score := b.request.score)
    && a.callbacks <= b.callbacks
    && (a.completed ==> b.callbacks == a.callbacks)
    && (a.started ==> b.request == a.request)
  }

  lemma {:induction false} ScheduleTaskMoves(c: Config, s: State, r: ScheduleRequest, callback: Option<Callback>)
    requires PendingOk(s) && forall k | k in s.pending :: !s.tasks[s.pending[k]].completed
    ensures var s' := Schedule(c, s, r, callback).0;
      && |s.tasks| <= |s'.tasks| && s'.workers == s.workers
      && (forall t | 0 <= t < |s.tasks| :: TaskJoined(s.tasks[t], s'.tasks[t]))
      && (forall t | |s.tasks| <= t < |s'.tasks| :: s'.tasks[t].answers == [] && s'.tasks[t].ran == [])
  {
    hide FireAt, MakeKey, Join, AlreadyThere, Open, Consume, NewTask, TaskJoined;
    forall t | 0 <= t < |s.tasks| ensures TaskJoined(s.tasks[t], s.tasks[t]) {
      SameJoins(s.tasks[t]);
    }
    if s.stopping || r.Key() !in s.experts {
      return;
    }
    var s1 := Consume(c, s, r);
    ConsumeTaskMoves(c, s, r);
    NewTaskIsFresh(r, callback, s1.nextSequence);
    var (s', outcome) := Schedule(c, s, r, callback);
    if outcome.Coalesced? {
      JoinTaskMoves(s1, outcome.task, r, callback);
      JoinedTwice(s.tasks[outcome.task], s1.tasks[outcome.task], s'.tasks[outcome.task]);
    }
  }

  lemma {:induction false} SameJoins(task: Task)
    ensures TaskJoined(task, task) && TaskJoined(task, task.(activeConsumer := true))
  {
  }

  lemma {:induction false} JoinedTwice(a: Task, b: Task, d: Task)
    requires TaskJoined(a, b) && TaskJoined(b, d)
    ensures TaskJoined(a, d)
  {
  }

  lemma {:induction false} NewTaskIsFresh(r: ScheduleRequest, callback: Option<Callback>, sequence: nat)
    ensures NewTask(r, callback, sequence).answers == [] && NewTask(r, callback, sequence).ran == []
  {
  }

  lemma {:induction false} ConsumeTaskMoves(c: Config, s: State, r: ScheduleRequest)
    requires PendingOk(s) && r.Key() in s.experts
    ensures var s1 := Consume(c, s, r);
      && |s1.tasks| == |s.tasks| && s1.workers == s.workers && s1.pending == s.pending && s1.experts == s.experts
      && (forall t | 0 <= t < |s.tasks| ::
            TaskJoined(s.tasks[t], s1.tasks[t]) && s1.tasks[t].completed == s.tasks[t].completed)
  {
    hide MakeKey, TaskJoined;
    forall t | 0 <= t < |s.tasks|
      ensures TaskJoined(s.tasks[t], s.tasks[t]) && TaskJoined(s.tasks[t], s.tasks[t].(activeConsumer := true))
    {
      SameJoins(s.tasks[t]);
    }
  }

  lemma {:induction false} JoinedTaskJoins(task: Task, r: ScheduleRequest, callback: Option<Callback>, sequence: nat)
    requires !task.completed
    ensures TaskJoined(task, JoinedTask(task, r, callback, sequence))
  {
  }

  lemma {:induction false} JoinTaskMoves(s: State, t: TaskId, r: ScheduleRequest, callback: Option<Callback>)
    requires t < |s.tasks| && !s.tasks[t].completed
    ensures var s' := Join(s, t, r, callback);
      && s'.tasks == s.tasks[t := s'.tasks[t]] && s'.workers == s.workers
      && TaskJoined(s.tasks[t], s'.tasks[t])
  {
    JoinedTaskJoins(s.tasks[t], r, callback, s.nextSequence);
  }

  /** Popping marks one task as started, or none. */
  lemma {:induction false} PopTaskMoves(s: State, w: nat, s': State)
    requires w < |s.workers| && PopResult(s, w, s')
    ensures |s'.tasks| == |s.tasks|
    ensures s'.workers == s.workers[w := s'.workers[w]] && !Succeeding(s'.workers[w])
    ensures forall t | 0 <= t < |s.tasks| ::
      s'.tasks[t] == s.tasks[t] || (!s.tasks[t].started && s'.tasks[t] == s.tasks[t].(started := true, owner := w))
  {
    var live := set e | e in s.queue && Live(s, e);
    if live != {} {
      var e :| IsBest(e, live) &&
        s' == s.(queue := (set x | x in s.queue && Better(e, x)),
                 tasks := s.tasks[e.task := s.tasks[e.task].(started := true, owner := w)],
                 workers := s.workers[w := Popped(e.task)]);
      assert e in live;
    }
  }

  // ---- exactly once ----

  /** A callback once attached stays at its place, and a task once answered
      never changes: no second answer, no second run of a callback. */
  lemma {:induction false} HistoryOnlyGrows(c: Config, s: State, step: Step, s': State, t: TaskId)
    requires Inv(s) && Next(c, s, step, s')
    requires t < |s.tasks|
    ensures t < |s'.tasks|
    ensures s.tasks[t].callbacks <= s'.tasks[t].callbacks
    ensures s.tasks[t].ran <= s'.tasks[t].ran
    ensures s.tasks[t].completed ==> s'.tasks[t].completed && s'.tasks[t].callbacks == s.tasks[t].callbacks
    ensures s.tasks[t].answers != [] ==> s'.tasks[t].answers == s.tasks[t].answers && s'.tasks[t].ran == s.tasks[t].ran
  {
    if step.ScheduleStep? {
      ScheduleTaskMoves(c, s, step.request, step.callback);
      assert TaskJoined(s.tasks[t], s'.tasks[t]);
    } else if step.PopStep? {
      PopTaskMoves(s, step.worker, s');
    } else {
      StepTaskMoves(c, s, step, s');
      assert TaskMoves(s, step, t, s.tasks[t], s'.tasks[t]);
      if s.tasks[t].answers != [] {
        AnsweredIsIdle(s, t);
      }
    }
  }

  lemma {:induction false} AnsweredIsIdle(s: State, t: TaskId)
    requires Inv(s) && t < |s.tasks| && s.tasks[t].answers != []
    ensures forall w | 0 <= w < |s.workers| && Busy(s.workers[w]) :: s.workers[w].task != t
  {
    assert !UnderDelivery(t, s.tasks[t], s.workers);
    assert Settled(s.tasks[t]);
  }

  /** A call that joins or opens a task has its callback attached to it, last;
      any other call attaches it to no task. */
  ghost predicate Attached(s: State, s': State, outcome: ScheduleOutcome, callback: Callback) {
    match outcome
    case Accepted(t) =>
      t == |s.tasks| && |s'.tasks| == t + 1 && s'.tasks[t].callbacks == [callback]
    case Coalesced(t) =>
      t < |s.tasks| == |s'.tasks| && !s.tasks[t].completed
      && s'.tasks[t].callbacks == s.tasks[t].callbacks + [callback]
    case _ =>
      |s'.tasks| == |s.tasks| && forall t | 0 <= t < |s.tasks| :: s'.tasks[t].callbacks == s.tasks[t].callbacks
  }

  lemma {:induction false} ConsumeAttachesNone(c: Config, s: State, r: ScheduleRequest)
    requires PendingOk(s) && r.Key() in s.experts
    ensures var s1 := Consume(c, s, r);
      && |s1.tasks| == |s.tasks| && s1.pending == s.pending
      && forall t | 0 <= t < |s.tasks| ::
           s1.tasks[t].callbacks == s.tasks[t].callbacks && s1.tasks[t].completed == s.tasks[t].completed
  {
    hide MakeKey;
  }

  lemma {:induction false} JoinAttaches(s: State, t: TaskId, r: ScheduleRequest, callback: Callback)
    requires t < |s.tasks|
    ensures var s' := Join(s, t, r, Some(callback));
      |s'.tasks| == |s.tasks| && s'.tasks[t].callbacks == s.tasks[t].callbacks + [callback]
  {
    hide Upgrades;
  }

  lemma {:induction false} EnqueueAttaches(s: State, table: Table, r: ScheduleRequest, callback: Callback)
    ensures var s' := Enqueue(s, table, r, Some(callback));
      |s'.tasks| == |s.tasks| + 1 && s'.tasks[|s.tasks|].callbacks == [callback]
  {
  }

  lemma {:induction false} CallbackIsAttached(c: Config, s: State, r: ScheduleRequest, callback: Callback)
    requires PendingOk(s) && TableOk(s.experts.Keys, s.tasks, s.pending)
    ensures Attached(s, Schedule(c, s, r, Some(callback)).0, Schedule(c, s, r, Some(callback)).1, callback)
  {
    hide MakeKey, FireAt, Upgrades, Consume, Join, Enqueue, AlreadyThere, Open;
    if s.stopping || r.Key() !in s.experts {
      return;
    }
    var s1 := Consume(c, s, r);
    ConsumeAttachesNone(c, s, r);
    if r.Key() in s.pending {
      JoinAttaches(s1, s.pending[r.Key()], r, callback);
    } else if Open(s.experts, r).Some? {
      EnqueueAttaches(s1, Open(s.experts, r).value, r, callback);
    }
  }

  /** On every run a task is answered at most once, its callbacks run in the
      order of attachment, and once it is answered all of them have run
      exactly once. While it is pending it is the only task of its expert. */
  lemma {:induction false} ExactlyOnce(c: Config, workerCount: nat, s: State, t: TaskId)
    requires Reachable(c, workerCount, s) && t < |s.tasks|
    ensures |s.tasks[t].answers| <= 1
    ensures s.tasks[t].ran <= s.tasks[t].callbacks
    ensures s.tasks[t].answers != [] ==> s.tasks[t].completed && s.tasks[t].ran == s.tasks[t].callbacks
    ensures !s.tasks[t].completed ==> forall u | 0 <= u < |s.tasks| && u != t ::
      s.tasks[u].request.Key() == s.tasks[t].request.Key() ==> s.tasks[u].completed
  {
    ReachableInv(c, workerCount, s);
    if UnderDelivery(t, s.tasks[t], s.workers) {
    } else {
      assert Settled(s.tasks[t]);
    }
  }

  // ---- shutdown ----

  ghost predicate AllExited(s: State) {
    |s.workers| > 0 && forall w | 0 <= w < |s.workers| :: s.workers[w].Exited?
  }

  /** The first shutdown call returns when every worker has exited: then no
      task is pending and every task ever accepted has been answered once. */
  lemma {:induction false} ShutdownLeavesNothing(c: Config, workerCount: nat, s: State)
    requires Reachable(c, workerCount, s) && AllExited(s)
    ensures s.pending == map[] && s.queue == {}
    ensures forall t | 0 <= t < |s.tasks| ::
      s.tasks[t].completed && |s.tasks[t].answers| == 1 && s.tasks[t].ran == s.tasks[t].callbacks
  {
    ReachableInv(c, workerCount, s);
    assert s.workers[0].Exited?;
    forall t | 0 <= t < |s.tasks|
      ensures s.tasks[t].completed && |s.tasks[t].answers| == 1 && s.tasks[t].ran == s.tasks[t].callbacks
    {
      assert s.tasks[t].started;
      assert s.tasks[t].completed;
      assert !UnderDelivery(t, s.tasks[t], s.workers);
    }
    assert forall k :: k !in s.pending;
  }

  /** Sections a worker still has to run before it is idle, plus one to exit. */
  function StepsLeft(worker: Worker, tasks: seq<Task>): nat {
    if worker.Exited? then 0
    else if worker.Idle? then 1
    else if worker.task >= |tasks| then 0
    else
      var callbacks := |tasks[worker.task].callbacks|;
      match worker
      case Delivering(t, _) => 2 + if |tasks[t].ran| < callbacks then callbacks - |tasks[t].ran| else 0
      case Committed(_) => 3 + callbacks
      case MarkedFailed(_) => 3 + callbacks
      case Failing(_, _) => 4 + callbacks
      case Readied(_, _) => 5 + callbacks
      case Answered(_, _) => 6 + callbacks
      case Transferring(_) => 7 + callbacks
      case Cleared(_) => 8 + callbacks
      case Popped(_) => 9 + callbacks
  }

  ghost function TotalLeft(workers: seq<Worker>, tasks: seq<Task>): nat {
    if workers == [] then 0 else StepsLeft(workers[0], tasks) + TotalLeft(workers[1..], tasks)
  }

  lemma {:induction false} TotalLeftDrops(workers: seq<Worker>, tasks: seq<Task>, workers': seq<Worker>,
                                          tasks': seq<Task>, w: nat)
    requires |workers'| == |workers| && w < |workers|
    requires StepsLeft(workers'[w], tasks') < StepsLeft(workers[w], tasks)
    requires forall v | 0 <= v < |workers| && v != w :: StepsLeft(workers'[v], tasks') == StepsLeft(workers[v], tasks)
    ensures TotalLeft(workers', tasks') < TotalLeft(workers, tasks)
    decreases |workers|
  {
    if w == 0 {
      TotalLeftSame(workers[1..], tasks, workers'[1..], tasks');
    } else {
      TotalLeftDrops(workers[1..], tasks, workers'[1..], tasks', w - 1);
    }
  }

  lemma {:induction false} TotalLeftSame(workers: seq<Worker>, tasks: seq<Task>, workers': seq<Worker>,
                                        tasks': seq<Task>)
    requires |workers'| == |workers|
    requires forall v | 0 <= v < |workers| :: StepsLeft(workers'[v], tasks') == StepsLeft(workers[v], tasks)
    ensures TotalLeft(workers', tasks') == TotalLeft(workers, tasks)
    decreases |workers|
  {
    if workers != [] {
      TotalLeftSame(workers[1..], tasks, workers'[1..], tasks');
    }
  }

  lemma {:induction false} PopShrinksQueue(s: State, w: nat, s': State)
    requires Inv(s) && w < |s.workers| && PopResult(s, w, s') && s.queue != {}
    ensures |s'.queue| < |s.queue|
  {
    var live := set e | e in s.queue && Live(s, e);
    if live == {} {
      assert s'.queue < s.queue;
    } else {
      var e :| IsBest(e, live) && s'.queue == set x | x in s.queue && Better(e, x);
      assert e in live && e !in s'.queue;
      SubsetSize(s'.queue, s.queue, e);
    }
  }

  lemma {:induction false} SubsetSize(small: set<QueueEntry>, large: set<QueueEntry>, e: QueueEntry)
    requires small <= large && e in large && e !in small
    ensures |small| < |large|
  {
    SubsetAtMost(small, large - {e});
  }

  lemma {:induction false} SubsetAtMost(small: set<QueueEntry>, large: set<QueueEntry>)
    requires small <= large
    ensures |small| <= |large|
    decreases |small|
  {
    if small != {} {
      var e :| e in small;
      SubsetAtMost(small - {e}, large - {e});
    }
  }

  /** During shutdown every worker section brings the end nearer: the queue
      shrinks, or it stays and fewer sections are left. No schedule of the
      workers can run forever. */
  lemma {:induction false} WorkersWindDown(c: Config, s: State, step: Step, s': State)
    requires Inv(s) && s.stopping && IsWorkerStep(step) && Next(c, s, step, s')
    ensures s'.stopping && |s'.workers| == |s.workers|
    ensures |s'.queue| < |s.queue|
         || (s'.queue == s.queue && TotalLeft(s'.workers, s'.tasks) < TotalLeft(s.workers, s.tasks))
  {
    var w := step.worker;
    if step.PopStep? {
      if s.queue != {} {
        PopShrinksQueue(s, w, s');
      } else {
        assert (set e | e in s.queue && Live(s, e)) == {};
        TotalLeftDrops(s.workers, s.tasks, s'.workers, s'.tasks, w);
      }
    } else {
      StepIsBusy(c, s, step, s');
      RanSoFar(s, w);
      hide Inv, WorkerNext, Next, StepsLeft, TotalLeft, OwnersOk;
      OwnStepLeft(c, s, step, s');
      OthersLeft(c, s, step, s');
      TotalLeftDrops(s.workers, s.tasks, s'.workers, s'.tasks, w);
    }
  }

  lemma {:induction false} StepIsBusy(c: Config, s: State, step: Step, s': State)
    requires IsWorkerStep(step) && !step.PopStep? && Next(c, s, step, s')
    ensures WorkerNext(c, s, step, s') && step.worker < |s.workers| && Busy(s.workers[step.worker])
  {
    hide CommitWith, BeginTransfer, FinishTransfer, TakeAnswer, Complete, Deliver, CheckCancelled, FireAt;
  }

  /** A worker's task has run its callbacks in order, and none before delivery. */
  lemma {:induction false} RanSoFar(s: State, w: nat)
    requires OwnersOk(s.tasks, s.workers) && DeliveryOk(s.tasks, s.workers)
    requires w < |s.workers| && Busy(s.workers[w])
    ensures s.workers[w].task < |s.tasks|
    ensures var task := s.tasks[s.workers[w].task];
      task.ran <= task.callbacks && (Holds(s.workers[w]) ==> task.ran == [])
  {
    var t := s.workers[w].task;
    assert s.tasks[t].owner == w;
    assert if UnderDelivery(t, s.tasks[t], s.workers) then s.tasks[t].ran <= s.tasks[t].callbacks else Settled(s.tasks[t]);
  }

  lemma {:induction false} OwnStepLeft(c: Config, s: State, step: Step, s': State)
    requires IsWorkerStep(step) && WorkerNext(c, s, step, s') && !step.PopStep?
    requires Holds(s.workers[step.worker]) ==> s.tasks[s.workers[step.worker].task].ran == []
    requires s.tasks[s.workers[step.worker].task].ran <= s.tasks[s.workers[step.worker].task].callbacks
    ensures |s'.workers| == |s.workers| && s'.queue == s.queue && s'.stopping == s.stopping
    ensures StepsLeft(s'.workers[step.worker], s'.tasks) < StepsLeft(s.workers[step.worker], s.tasks)
  {
    WorkerOwnMove(c, s, step, s');
    if step.DeliverStep? {
      DeliverOwnMove(c, s, step.worker, s');
    } else {
      FollowersHaveLess(s.workers[step.worker], s.tasks, s'.workers[step.worker], s'.tasks);
    }
  }

  lemma {:induction false} FollowersHaveLess(a: Worker, tasks: seq<Task>, b: Worker, tasks': seq<Task>)
    requires Follows(a, b) && !a.Delivering? && a.task < |tasks| == |tasks'|
    requires tasks'[a.task].callbacks == tasks[a.task].callbacks && tasks'[a.task].ran == []
    ensures StepsLeft(b, tasks') < StepsLeft(a, tasks)
  {
  }

  lemma {:induction false} OthersLeft(c: Config, s: State, step: Step, s': State)
    requires OwnersOk(s.tasks, s.workers) && IsWorkerStep(step) && Next(c, s, step, s') && !step.PopStep?
    ensures |s'.workers| == |s.workers|
    ensures forall v | 0 <= v < |s.workers| && v != step.worker ::
      StepsLeft(s'.workers[v], s'.tasks) == StepsLeft(s.workers[v], s.tasks)
  {
    StepTaskMoves(c, s, step, s');
    forall v | 0 <= v < |s.workers| && v != step.worker
      ensures StepsLeft(s'.workers[v], s'.tasks) == StepsLeft(s.workers[v], s.tasks)
    {
      assert s'.workers[v] == s.workers[v];
      if Busy(s.workers[v]) {
        assert s.tasks[s.workers[v].task].owner == v;
        assert TaskMoves(s, step, s.workers[v].task, s.tasks[s.workers[v].task], s'.tasks[s.workers[v].task]);
      }
    }
  }

  lemma {:induction false} BestExists(entries: set<QueueEntry>)
    requires entries != {}
    requires forall e, f | e in entries && f in entries && e.sequence == f.sequence :: e == f
    ensures exists e :: IsBest(e, entries)
    decreases |entries|
  {
    var e :| e in entries;
    var rest := entries - {e};
    if rest == {} {
      assert entries == {e};
      assert IsBest(e, entries);
    } else {
      BestExists(rest);
      var b :| IsBest(b, rest);
      assert b in rest && b.sequence != e.sequence;
      if Better(b, e) {
        assert IsBest(b, entries);
      } else {
        assert forall x | x in entries && x != e :: x == b || Better(b, x);
        assert IsBest(e, entries);
      }
    }
  }

  lemma {:induction false} PopExists(s: State, w: nat) returns (s': State)
    requires QueueOk(s.tasks, s.queue, s.nextSequence) && w < |s.workers|
    ensures PopResult(s, w, s')
  {
    var live := set e | e in s.queue && Live(s, e);
    if live == {} {
      s' := s.(queue := {}, workers := s.workers[w := if s.stopping then Exited else Idle]);
    } else {
      BestExists(live);
      var e :| IsBest(e, live);
      assert e in live;
      s' := s.(queue := (set x | x in s.queue && Better(e, x)),
               tasks := s.tasks[e.task := s.tasks[e.task].(started := true, owner := w)],
               workers := s.workers[w := Popped(e.task)]);
    }
  }

  lemma {:induction false} AscendingOrder(keys: set<Key>) returns (order: seq<Key>)
    ensures Ascending(order) && forall k :: k in order <==> k in keys
    decreases |keys|
  {
    if keys == {} {
      order := [];
    } else {
      var k :| k in keys;
      var largest := LargestKey(keys, k);
      var smaller := AscendingOrder(keys - {largest});
      assert forall j | j in smaller :: j in keys - {largest} && j < largest;
      assert forall i | 0 <= i < |smaller| :: smaller[i] in smaller;
      order := smaller + [largest];
    }
  }

  lemma {:induction false} LargestKey(keys: set<Key>, some: Key) returns (largest: Key)
    requires some in keys
    ensures largest in keys && forall j | j in keys :: j <= largest
    decreases |set j | j in keys && j > some|
  {
    if larger :| larger in keys && larger > some {
      var above, fewer := (set j | j in keys && j > some), (set j | j in keys && j > larger);
      assert fewer < above by { assert larger in above && larger !in fewer; }
      SubsetSmaller(fewer, above);
      largest := LargestKey(keys, larger);
    } else {
      largest := some;
    }
  }

  lemma {:induction false} SubsetSmaller(small: set<Key>, large: set<Key>)
    requires small < large
    ensures |small| < |large|
    decreases |small|
  {
    if small == {} {
      var k :| k in large;
    } else {
      var k :| k in small;
      assert small - {k} < large - {k} by {
        var j :| j in large && j !in small;
        assert j in large - {k};
      }
      SubsetSmaller(small - {k}, large - {k});
    }
  }

  /** A worker waits only while it is idle, nothing is queued and nobody has
      called for shutdown. */
  predicate CanMove(s: State, w: nat) {
    w < |s.workers| && !s.workers[w].Exited? && (s.workers[w].Idle? ==> s.stopping || s.queue != {})
  }

  /** Every other worker can take its next section, given that the transfer
      engine answers: no worker is ever stuck, in shutdown or outside it. */
  lemma {:induction false} WorkerCanStep(c: Config, s: State, w: nat) returns (step: Step, s': State)
    requires Inv(s) && CanMove(s, w)
    ensures IsWorkerStep(step) && step.worker == w && Next(c, s, step, s')
  {
    if s.workers[w].Idle? {
      step := PopStep(w);
      s' := PopExists(s, w);
    } else if s.workers[w].Delivering? {
      step, s' := DeliverStep(w), Deliver(s, w, s.workers[w].task, s.workers[w].success);
    } else {
      OwnedShows(s, w);
      step, s' := HolderCanStep(c, s, w);
    }
  }

  lemma {:induction false} WorkerStepsExactly(c: Config, s: State, w: nat)
    requires Inv(s)
    ensures (exists step, s' :: IsWorkerStep(step) && step.worker == w && Next(c, s, step, s')) <==> CanMove(s, w)
  {
    if CanMove(s, w) {
      var step, s' := WorkerCanStep(c, s, w);
    }
    forall step, s' | IsWorkerStep(step) && step.worker == w && Next(c, s, step, s')
      ensures CanMove(s, w)
    {
      if !step.PopStep? {
        StepIsBusy(c, s, step, s');
      }
    }
  }

  /** While there is a task that no worker has started, an idle worker can pop,
      and whenever one pops it takes the first task of the abstract queue. */
  lemma {:induction false} IdleTakesFirst(c: Config, s: State, w: nat, t: TaskId)
    requires Inv(s) && w < |s.workers| && s.workers[w].Idle? && t < |s.tasks| && !s.tasks[t].started
    ensures CanMove(s, w) && exists s' :: Next(c, s, PopStep(w), s')
    ensures forall s' | Next(c, s, PopStep(w), s') ::
      w < |s'.workers| && s'.workers[w].Popped? && IsFirst(WaitingTasks(s), s'.workers[w].task)
  {
    WaitingIsLive(s);
    assert t in WaitingTasks(s);
    assert s.queue != {};
    var some := PopExists(s, w);
    assert Next(c, s, PopStep(w), some);
    forall s' | Next(c, s, PopStep(w), s')
      ensures s'.workers[w].Popped? && IsFirst(WaitingTasks(s), s'.workers[w].task)
    {
      PopTakesFirst(s, w, s');
    }
  }

  lemma {:induction false} HolderCanStep(c: Config, s: State, w: nat) returns (step: Step, s': State)
    requires w < |s.workers| && Holds(s.workers[w]) && s.workers[w].task < |s.tasks|
    requires var r := s.tasks[s.workers[w].task].request;
      r.Key() in s.experts && Shows(s.experts[r.Key()].state, r.eviction, s.workers[w])
    ensures IsWorkerStep(step) && step.worker == w && Next(c, s, step, s')
  {
    match s.workers[w]
    case Popped(t) =>
      step, s' := CheckStep(w), CheckCancelled(s, w, t);
    case Cleared(t) =>
      step, s' := BeginTransferStep(w), BeginTransfer(s, w, t).value;
    case Transferring(t) =>
      step, s' := AnswerStep(w, AnsweredError), TakeAnswer(s, w, t, AnsweredError);
    case Answered(t, transfer) =>
      step, s' := MarkReadyStep(w), FinishTransfer(s, w, t, transfer);
    case Readied(t, transfer) =>
      var order := AscendingOrder(s.prefetched + {s.tasks[t].request.Key()});
      step, s' := CommitStep(w, order), CommitWith(c, s, w, t, transfer, order);
    case Committed(t) =>
      step, s' := CompleteStep(w), Complete(s, w, t, true);
    case Failing(t, _) =>
      step := MarkFailedStep(w);
      s' := s.(experts := FireAt(s.experts, s.tasks[t].request.Key(), MarkFailed).value,
               workers := s.workers[w := MarkedFailed(t)]);
    case MarkedFailed(t) =>
      step, s' := CompleteStep(w), Complete(s, w, t, false);
  }

  /** Hence from every state of a run in shutdown the workers all exit, by any
      choice of who moves next, and nothing is left behind. */
  lemma {:induction false} ShutdownFinishes(c: Config, workerCount: nat, s: State) returns (final: State)
    requires Reachable(c, workerCount, s) && s.stopping && |s.workers| > 0
    ensures Reachable(c, workerCount, final) && AllExited(final) && final.pending == map[]
    ensures RunsTo(c, s, final)
    decreases |s.queue|, TotalLeft(s.workers, s.tasks)
  {
    ReachableInv(c, workerCount, s);
    if w :| 0 <= w < |s.workers| && !s.workers[w].Exited? {
      var step, s' := WorkerCanStep(c, s, w);
      WorkersWindDown(c, s, step, s');
      ReachableNext(c, workerCount, s, step, s');
      final := ShutdownFinishes(c, workerCount, s');
      RunsToLonger(c, s, step, s', final);
    } else {
      final := s;
      RunsToItself(c, s);
      ShutdownLeavesNothing(c, workerCount, s);
    }
  }

  /** A second shutdown call finds the flag set and returns at once, even with
      tasks pending: only the call that set the flag waits for the workers. */
  lemma {:induction false} SecondShutdownMayReturnEarly(c: Config, workerCount: nat)
    requires workerCount > 0
    ensures exists s :: Reachable(c, workerCount, s) && s.stopping && BeginShutdown(s) == s && s.pending != map[]
  {
    var r := ScheduleRequest(0, 0, Vram, ActiveInference, false, 0.0);
    var s0 := Initial(workerCount);
    ReachableStart(c, workerCount);
    var s1 := s0.(experts := map[0 := ExpertState(Nvme, Nvme, Ready, 0)]);
    ReachableNext(c, workerCount, s0, RegisterStep(0, Nvme), s1);
    var s2 := Schedule(c, s1, r, None).0;
    ReachableNext(c, workerCount, s1, ScheduleStep(r, None), s2);
    assert r.Key() in s2.pending;
    var s3 := BeginShutdown(s2);
    ReachableNext(c, workerCount, s2, ShutdownStep, s3);
  }

  // ---- use ----

  /** An expert in use keeps its state, tier and count through every step but
      two: its release, and the failure of its own task after an aborted
      commit. The second needs a pending task. */
  lemma {:induction false} InUseIsKept(c: Config, s: State, step: Step, s': State, k: Key)
    requires Inv(s) && Next(c, s, step, s')
    requires k in s.experts && s.experts[k].state == InUse
    ensures k in s'.experts
    ensures s'.experts[k] == s.experts[k] <==> !(step == ReleaseStep(k) || FailsTaskOf(s, step, k))
    ensures FailsTaskOf(s, step, k) ==> k in s.pending && s.workers[step.worker].cause == CommitAborted
  {
    if IsWorkerStep(step) {
      if Holds(s.workers[step.worker]) {
        OwnedShows(s, step.worker);
      }
      if step.PopStep? {
        PopKeepsExperts(s, step.worker, s');
      } else {
        WorkerSparesInUse(c, s, step, s', k);
      }
    } else {
      if k in s.pending {
        assert TaskShows(InUse, s.tasks[s.pending[k]], s.workers);
      }
      ClientSparesInUse(c, s, step, s', k);
    }
  }

  lemma {:induction false} PopKeepsExperts(s: State, w: nat, s': State)
    requires w < |s.workers| && PopResult(s, w, s')
    ensures s'.experts == s.experts
  {
  }

  lemma {:induction false} ScheduleSparesInUse(c: Config, s: State, r: ScheduleRequest, callback: Option<Callback>,
                                        k: Key)
    requires PendingOk(s) && k in s.experts && s.experts[k].state == InUse
    ensures k in Schedule(c, s, r, callback).0.experts
    ensures Schedule(c, s, r, callback).0.experts[k] == s.experts[k]
  {
  }

  lemma {:induction false} ClientSparesInUse(c: Config, s: State, step: Step, s': State, k: Key)
    requires !IsWorkerStep(step) && ClientNext(c, s, step, s')
    requires k in s.experts && s.experts[k].state == InUse
    ensures k in s'.experts
    ensures s'.experts[k] == s.experts[k] <==> step != ReleaseStep(k)
  {
    match step
    case ExpireStep(layer, order) => ExpireSparesInUse(s, layer, order, k);
    case ScheduleStep(r, callback) => ScheduleSparesInUse(c, s, r, callback, k);
    case _ =>
  }

  lemma {:induction false} WorkerSparesInUse(c: Config, s: State, step: Step, s': State, k: Key)
    requires IsWorkerStep(step) && WorkerNext(c, s, step, s') && !step.PopStep?
    requires k in s.experts && s.experts[k].state == InUse
    requires Holds(s.workers[step.worker]) ==>
      var r := s.tasks[s.workers[step.worker].task].request;
      r.Key() in s.experts && Shows(s.experts[r.Key()].state, r.eviction, s.workers[step.worker])
    ensures k in s'.experts
    ensures s'.experts[k] == s.experts[k] <==> !FailsTaskOf(s, step, k)
    ensures FailsTaskOf(s, step, k) ==> s.workers[step.worker].cause == CommitAborted
  {
    if step.CommitStep? {
      var t := s.workers[step.worker].task;
      TrimSparesInUse(s.experts, Store(s, t, s.workers[step.worker].transfer),
                      s.prefetched + {s.tasks[t].request.Key()}, step.candidates, s.tasks[t].request.Key(),
                      c.maximumPrefetchBytes, 0, k);
    }
  }

  /** The step marks the task of this expert as failed. */
  predicate FailsTaskOf(s: State, step: Step, k: Key) {
    && step.MarkFailedStep?
    && step.worker < |s.workers|
    && s.workers[step.worker].Failing?
    && s.workers[step.worker].task < |s.tasks|
    && s.tasks[s.workers[step.worker].task].request.Key() == k
  }

  lemma {:induction false} ExpireSparesInUse(s: State, layer: Id32, order: seq<Key>, k: Key)
    requires k in s.experts && s.experts[k].state == InUse
    ensures k in ExpireFrom(s, layer, order).0.experts
    ensures ExpireFrom(s, layer, order).0.experts[k] == s.experts[k]
    decreases |order|
  {
    if order != [] {
      if KeyLayer(order[0]) >= layer {
        ExpireSparesInUse(s, layer, order[1..], k);
      } else if FireAt(s.experts, order[0], Reconcile(Nvme)).Some? {
        var next := s.(resident := s.resident - {order[0]},
                       experts := FireAt(s.experts, order[0], Reconcile(Nvme)).value,
                       prefetched := s.prefetched - {order[0]});
        ExpireSparesInUse(next, layer, order[1..], k);
      }
    }
  }

  lemma {:induction false} TrimSparesInUse(experts: Table, resident: map<Key, Transfer>, prefetched: set<Key>,
                                           candidates: seq<Key>, own: Key, maximum: nat, cached: nat, k: Key)
    requires k in experts && experts[k].state == InUse
    ensures var trimmed := TrimFrom(experts, resident, prefetched, candidates, own, maximum, cached);
      k in trimmed.experts && trimmed.experts[k] == experts[k]
    decreases |candidates|
  {
    if candidates != [] {
      var j, rest := candidates[0], candidates[1..];
      if j !in resident {
        TrimSparesInUse(experts, resident, prefetched, rest, own, maximum, cached, k);
      } else if resident[j].bytes <= maximum - cached {
        TrimSparesInUse(experts, resident, prefetched, rest, own, maximum, cached + resident[j].bytes, k);
      } else if j == own {
        TrimSparesInUse(experts, resident - {j}, prefetched - {j}, rest, own, maximum, cached, k);
      } else if FireAt(experts, j, Reconcile(Nvme)).Some? {
        TrimSparesInUse(FireAt(experts, j, Reconcile(Nvme)).value, resident - {j}, prefetched - {j}, rest, own,
                        maximum, cached, k);
      }
    }
  }

  // ---- a tier that cannot be reached ----

  /** Workers that report success, or are on the way to it. */
  predicate Succeeding(worker: Worker) {
    worker.Answered? || worker.Readied? || worker.Committed? || (worker.Delivering? && worker.success)
  }

  ghost predicate NvmeFails(s: State) {
    && (forall w | 0 <= w < |s.workers| && Succeeding(s.workers[w]) ::
          s.workers[w].task < |s.tasks| ==> s.tasks[s.workers[w].task].request.destination != Nvme)
    && (forall t | 0 <= t < |s.tasks| && true in s.tasks[t].answers :: s.tasks[t].request.destination != Nvme)
  }

  lemma {:induction false} NvmeWorkers(c: Config, s: State, step: Step, s': State)
    requires IsWorkerStep(step) && WorkerNext(c, s, step, s') && !step.PopStep?
    requires Succeeding(s.workers[step.worker]) ==>
      s.tasks[s.workers[step.worker].task].request.destination != Nvme
    ensures |s'.workers| == |s.workers|
    ensures Succeeding(s'.workers[step.worker]) ==>
      && s'.workers[step.worker].task == s.workers[step.worker].task
      && s.tasks[s.workers[step.worker].task].request.destination != Nvme
  {
    WorkerOwnMove(c, s, step, s');
    hide FireAt, PopResult, CheckCancelled, BeginTransfer, FinishTransfer, TrimFrom, Store, Complete, Deliver, MakeKey,
         TaskMoves;
    if s.workers[step.worker].Transferring? {
      assert step.AnswerStep?;
    }
  }

  lemma {:induction false} NvmeSchedule(c: Config, s: State, r: ScheduleRequest, callback: Option<Callback>)
    requires Inv(s) && NvmeFails(s)
    ensures NvmeFails(Schedule(c, s, r, callback).0)
  {
    OpenPending(s);
    hide Inv, Schedule, PendingOk, TaskJoined;
    ScheduleTaskMoves(c, s, r, callback);
    var s' := Schedule(c, s, r, callback).0;
    forall t | 0 <= t < |s.tasks|
      ensures s'.tasks[t].request.destination == s.tasks[t].request.destination && s'.tasks[t].answers == s.tasks[t].answers
    {
      JoinedKeeps(s.tasks[t], s'.tasks[t]);
    }
  }

  lemma {:induction false} JoinedKeeps(a: Task, b: Task)
    requires TaskJoined(a, b)
    ensures b.request.destination == a.request.destination && b.answers == a.answers
  {
  }

  lemma {:induction false} OpenPending(s: State)
    requires Inv(s)
    ensures PendingOk(s) && forall k | k in s.pending :: !s.tasks[s.pending[k]].completed
    ensures forall w | 0 <= w < |s.workers| && Succeeding(s.workers[w]) :: s.workers[w].task < |s.tasks|
  {
  }

  lemma {:induction false} NvmePop(s: State, w: nat, s': State)
    requires Inv(s) && NvmeFails(s) && w < |s.workers| && s.workers[w].Idle? && PopResult(s, w, s')
    ensures NvmeFails(s')
  {
    hide TableOk, QueueOk, LifecycleOk, CancelledOk, ExitsOk;
    PopTaskMoves(s, w, s');
  }

  lemma {:induction false} NvmeFailsKept(c: Config, s: State, step: Step, s': State)
    requires Inv(s) && NvmeFails(s) && Next(c, s, step, s')
    ensures NvmeFails(s')
  {
    if step.ScheduleStep? {
      NvmeSchedule(c, s, step.request, step.callback);
    } else if step.PopStep? {
      NvmePop(s, step.worker, s');
    } else {
      hide Inv, Next, NvmeFails;
      NvmeOther(c, s, step, s');
    }
  }

  lemma {:induction false} WorkerIsPlaced(c: Config, s: State, step: Step, s': State)
    requires IsWorkerStep(step) && Next(c, s, step, s')
    ensures At(s, step.worker) && WorkerNext(c, s, step, s')
  {
  }

  lemma {:induction false} NvmeOther(c: Config, s: State, step: Step, s': State)
    requires NvmeFails(s) && Next(c, s, step, s') && !step.ScheduleStep? && !step.PopStep?
    ensures NvmeFails(s')
  {
    hide ClientNext, WorkerNext, Next;
    StepTaskMoves(c, s, step, s');
    if IsWorkerStep(step) {
      WorkerIsPlaced(c, s, step, s');
      NvmeWorkers(c, s, step, s');
    }
    forall t | 0 <= t < |s.tasks| && true in s'.tasks[t].answers
      ensures s'.tasks[t].request.destination != Nvme
    {
      assert TaskMoves(s, step, t, s.tasks[t], s'.tasks[t]);
    }
  }

  /** The transfer engine refuses NVMe as a destination, so no request for it,
      eviction or not, is ever answered with success. */
  lemma {:induction false} NvmeNeverSucceeds(c: Config, workerCount: nat, trace: seq<State>, steps: seq<Step>, i: nat)
    requires IsRun(c, workerCount, trace, steps) && i < |trace|
    ensures NvmeFails(trace[i])
  {
    if i == 0 {
      hide Next;
    } else {
      hide Next, NvmeFails, Inv;
      NvmeNeverSucceeds(c, workerCount, trace, steps, i - 1);
      RunKeeps(c, workerCount, trace, steps, i - 1);
      NvmeFailsKept(c, trace[i - 1], steps[i - 1], trace[i]);
    }
  }
}
