/**
The inductive invariant of the scheduler and its preservation by every step.
Each part of the invariant reads only the fields it is about.
 */
module SchedulerInvariant {
  import opened Wrappers
  import opened ExpertStates
  import opened SchedulerModel

  /** A pending table entry names an incomplete task of that very expert, and
      every incomplete task has its entry: one task per expert at a time. */
  ghost predicate TableOk(registered: set<Key>, tasks: seq<Task>, pending: map<Key, TaskId>) {
    && (forall k | k in pending ::
          && k in registered
          && pending[k] < |tasks|
          && tasks[pending[k]].request.Key() == k
          && !tasks[pending[k]].completed)
    && (forall t | 0 <= t < |tasks| && !tasks[t].completed ::
          && tasks[t].request.Key() in pending
          && pending[tasks[t].request.Key()] == t)
  }

  predicate Busy(worker: Worker) {
    !worker.Idle? && !worker.Exited?
  }

  /** Busy with a task that has not been completed yet. */
  predicate Holds(worker: Worker) {
    Busy(worker) && !worker.Delivering?
  }

  /** A worker between popping and delivering owns its task alone. */
  ghost predicate OwnersOk(tasks: seq<Task>, workers: seq<Worker>) {
    && (forall w | 0 <= w < |workers| && Busy(workers[w]) ::
          && workers[w].task < |tasks|
          && tasks[workers[w].task].owner == w
          && tasks[workers[w].task].started
          && tasks[workers[w].task].completed == workers[w].Delivering?)
    && (forall t | 0 <= t < |tasks| && tasks[t].started && !tasks[t].completed ::
          && tasks[t].owner < |workers|
          && Holds(workers[tasks[t].owner])
          && workers[tasks[t].owner].task == t)
    && (forall t | 0 <= t < |tasks| && tasks[t].completed :: tasks[t].started)
  }

  function Newest(t: TaskId, task: Task): QueueEntry {
    QueueEntry(t, task.request.priority, task.newest, task.generation, task.request.score)
  }

  /** Strictly lower by priority, or by score at equal priority. */
  predicate Outranked(e: QueueEntry, r: ScheduleRequest) {
    || e.priority.Rank() < r.priority.Rank()
    || (e.priority == r.priority && e.score < r.score)
  }

  /** An entry is the newest of its task, or ranks strictly below it, or its
      task has already been started. */
  ghost predicate EntryOk(tasks: seq<Task>, e: QueueEntry) {
    && e.task < |tasks|
    && e.generation <= tasks[e.task].generation
    && (!tasks[e.task].started ==>
          if e.generation == tasks[e.task].generation then e == Newest(e.task, tasks[e.task])
          else Outranked(e, tasks[e.task].request))
  }

  /** Each waiting task has one live entry that carries its current priority
      and score; its older entries rank strictly below. */
  ghost predicate QueueOk(tasks: seq<Task>, queue: set<QueueEntry>, nextSequence: nat) {
    && (forall e | e in queue :: e.sequence < nextSequence && EntryOk(tasks, e))
    && (forall e, f | e in queue && f in queue && e.sequence == f.sequence :: e == f)
    && (forall t | 0 <= t < |tasks| && !tasks[t].started :: Newest(t, tasks[t]) in queue)
  }

  function Waiting(r: ScheduleRequest): Lifecycle {
    if r.eviction then Evicting else Queued
  }

  function Moving(r: ScheduleRequest): Lifecycle {
    if r.eviction then Evicting else Loading
  }

  /** The lifecycle states an expert may show while its task is here. */
  predicate Shows(state: Lifecycle, eviction: bool, worker: Worker) {
    var waiting := if eviction then Evicting else Queued;
    var moving := if eviction then Evicting else Loading;
    match worker
    case Popped(_) => state == waiting
    case Cleared(_) => state == waiting
    case Transferring(_) => state == moving
    case Answered(_, _) => state == moving
    case Readied(_, _) => state == Ready || state == InUse
    case Committed(_) => state == Ready || state == InUse
    case Failing(_, cause) =>
      if cause == CommitAborted then state == Ready || state == InUse
      else cause != GuardRefused && (state == waiting || state == moving)
    case MarkedFailed(_) => state == Failed || state == Ready || state == InUse
    case _ => false
  }

  /** The lifecycle state that goes with a pending task. */
  ghost predicate TaskShows(state: Lifecycle, task: Task, workers: seq<Worker>) {
    if task.started then task.owner < |workers| && Shows(state, task.request.eviction, workers[task.owner])
    else state == Waiting(task.request)
  }

  ghost predicate LifecycleOk(experts: Table, tasks: seq<Task>, pending: map<Key, TaskId>, workers: seq<Worker>) {
    && (forall k | k in experts && k !in pending :: experts[k].state in {Ready, InUse, Failed})
    && (forall k | k in experts && k in pending ::
          pending[k] < |tasks| && TaskShows(experts[k].state, tasks[pending[k]], workers))
  }

  /** Its owner is still running its callbacks. */
  ghost predicate UnderDelivery(t: TaskId, task: Task, workers: seq<Worker>) {
    task.owner < |workers| && workers[task.owner].Delivering? && workers[task.owner].task == t
  }

  /** Nothing is answered before completion; afterwards every callback has run,
      in the order of attachment, and the promise has exactly one value. */
  predicate Settled(task: Task) {
    if task.completed then task.ran == task.callbacks && |task.answers| == 1
    else task.ran == [] && task.answers == []
  }

  /** What callers have received, also while the callbacks are being run. */
  ghost predicate DeliveryOk(tasks: seq<Task>, workers: seq<Worker>) {
    forall t | 0 <= t < |tasks| ::
      if UnderDelivery(t, tasks[t], workers)
      then tasks[t].completed && tasks[t].ran <= tasks[t].callbacks && tasks[t].answers == []
      else Settled(tasks[t])
  }

  ghost predicate CancelledOk(stopping: bool, tasks: seq<Task>, pending: map<Key, TaskId>) {
    stopping ==> forall k | k in pending :: pending[k] < |tasks| && tasks[pending[k]].cancelled
  }

  ghost predicate ExitsOk(stopping: bool, queue: set<QueueEntry>, workers: seq<Worker>) {
    forall w | 0 <= w < |workers| && workers[w].Exited? :: stopping && queue == {}
  }

  ghost predicate Inv(s: State) {
    && TableOk(s.experts.Keys, s.tasks, s.pending)
    && OwnersOk(s.tasks, s.workers)
    && QueueOk(s.tasks, s.queue, s.nextSequence)
    && LifecycleOk(s.experts, s.tasks, s.pending, s.workers)
    && DeliveryOk(s.tasks, s.workers)
    && CancelledOk(s.stopping, s.tasks, s.pending)
    && ExitsOk(s.stopping, s.queue, s.workers)
    && s.prefetched <= s.experts.Keys
  }

  lemma {:induction false} InitialInv(workerCount: nat)
    ensures Inv(Initial(workerCount))
  {
  }

  // ---- lifecycle table changes ----

  predicate Gentle(before: Lifecycle, after: Lifecycle) {
    before in {Ready, InUse, Failed} && after in {Ready, InUse}
  }

  /** The lifecycle table moved only where the invariant allows it to. */
  ghost predicate GentleTable(experts: Table, experts': Table) {
    && experts'.Keys == experts.Keys
    && forall k | k in experts :: experts'[k] == experts[k] || Gentle(experts[k].state, experts'[k].state)
  }

  lemma {:induction false} GentleShows(before: Lifecycle, after: Lifecycle, task: Task, workers: seq<Worker>)
    requires Gentle(before, after) && TaskShows(before, task, workers)
    ensures TaskShows(after, task, workers)
  {
  }

  lemma {:induction false} GentleLifecycle(experts: Table, experts': Table, tasks: seq<Task>, pending: map<Key, TaskId>,
                        workers: seq<Worker>)
    requires LifecycleOk(experts, tasks, pending, workers)
    requires GentleTable(experts, experts')
    ensures LifecycleOk(experts', tasks, pending, workers)
  {
    forall k | k in experts' && k in pending
      ensures pending[k] < |tasks| && TaskShows(experts'[k].state, tasks[pending[k]], workers)
    {
      if experts'[k] != experts[k] {
        GentleShows(experts[k].state, experts'[k].state, tasks[pending[k]], workers);
      }
    }
  }

  lemma {:induction false} FireGentle(experts: Table, k: Key, a: Action)
    requires a.Acquire? || a.Release? || a.Reconcile?
    requires k in experts && experts[k].state != Requested
    requires FireAt(experts, k, a).Some?
    ensures GentleTable(experts, FireAt(experts, k, a).value)
  {
  }

  lemma {:induction false} NeverRequested(s: State, k: Key)
    requires Inv(s) && k in s.experts
    ensures s.experts[k].state != Requested
  {
    if k in s.pending {
      assert TaskShows(s.experts[k].state, s.tasks[s.pending[k]], s.workers);
    }
  }

  /** Acquire, release and reconcile, whether refused or not. */
  lemma {:induction false} FireKeeps(s: State, k: Key, a: Action)
    requires Inv(s)
    requires a.Acquire? || a.Release? || a.Reconcile?
    ensures Inv(FireOrKeep(s, k, a))
  {
    if FireAt(s.experts, k, a).Some? {
      NeverRequested(s, k);
      FireGentle(s.experts, k, a);
      GentleLifecycle(s.experts, FireAt(s.experts, k, a).value, s.tasks, s.pending, s.workers);
    }
  }

  lemma {:induction false} ExpireKeeps(s: State, layer: Id32, order: seq<Key>)
    requires Inv(s)
    ensures Inv(ExpireFrom(s, layer, order).0)
    decreases |order|
  {
    if order != [] {
      if KeyLayer(order[0]) >= layer {
        ExpireKeeps(s, layer, order[1..]);
      } else {
        var dropped := s.(resident := s.resident - {order[0]});
        if FireAt(s.experts, order[0], Reconcile(Nvme)).Some? {
          FireKeeps(dropped, order[0], Reconcile(Nvme));
          var next := FireOrKeep(dropped, order[0], Reconcile(Nvme)).(prefetched := s.prefetched - {order[0]});
          ExpireKeeps(next, layer, order[1..]);
        }
      }
    }
  }

  lemma {:induction false} AcknowledgeKeeps(s: State, k: Key, tier: MemoryTier)
    requires Inv(s)
    ensures Inv(Acknowledge(s, k, tier))
  {
    if k !in s.pending {
      FireKeeps(s.(resident := s.resident - {k}, prefetched := s.prefetched - {k}), k, Reconcile(tier));
    }
  }

  lemma {:induction false} RegisterKeeps(s: State, key: Key, tier: MemoryTier)
    requires Inv(s) && key !in s.experts
    ensures Inv(s.(experts := s.experts[key := ExpertState(tier, tier, Ready, 0)]))
  {
  }

  // ---- task changes ----

  /** What the table and the owners read of a task is the same. */
  predicate SameStage(a: Task, b: Task) {
    a.request.Key() == b.request.Key() && a.request.eviction == b.request.eviction
    && a.started == b.started && a.completed == b.completed && a.owner == b.owner
  }

  lemma {:induction false} SameStageKeeps(experts: Table, tasks: seq<Task>, tasks': seq<Task>, pending: map<Key,
                                          TaskId>, workers: seq<Worker>)
    requires |tasks'| == |tasks| && forall t | 0 <= t < |tasks| :: SameStage(tasks[t], tasks'[t])
    requires TableOk(experts.Keys, tasks, pending) && OwnersOk(tasks, workers)
    requires LifecycleOk(experts, tasks, pending, workers)
    ensures TableOk(experts.Keys, tasks', pending) && OwnersOk(tasks', workers)
    ensures LifecycleOk(experts, tasks', pending, workers)
  {
    forall k | k in experts && k in pending
      ensures pending[k] < |tasks'| && TaskShows(experts[k].state, tasks'[pending[k]], workers)
    {
      assert SameStage(tasks[pending[k]], tasks'[pending[k]]);
      assert TaskShows(experts[k].state, tasks[pending[k]], workers);
    }
  }

  /** Only the cancellation flag and the consumer mark differ. */
  predicate SameButFlags(a: Task, b: Task) {
    b == a.(cancelled := b.cancelled, activeConsumer := b.activeConsumer)
  }

  lemma {:induction false} FlagsKeep(s: State, tasks': seq<Task>)
    requires Inv(s)
    requires |tasks'| == |s.tasks|
    requires forall t | 0 <= t < |tasks'| :: SameButFlags(s.tasks[t], tasks'[t])
    requires forall t | 0 <= t < |tasks'| && s.tasks[t].cancelled :: tasks'[t].cancelled
    ensures Inv(s.(tasks := tasks'))
  {
    SameStageKeeps(s.experts, s.tasks, tasks', s.pending, s.workers);
    assert QueueOk(tasks', s.queue, s.nextSequence) by {
      assert forall t | 0 <= t < |tasks'| :: Newest(t, tasks'[t]) == Newest(t, s.tasks[t]);
      assert forall e | e in s.queue :: EntryOk(s.tasks, e);
    }
    assert DeliveryOk(tasks', s.workers) by {
      assert forall t | 0 <= t < |tasks'| ::
        UnderDelivery(t, tasks'[t], s.workers) == UnderDelivery(t, s.tasks[t], s.workers);
    }
  }

  lemma {:induction false} ShutdownKeeps(s: State)
    requires Inv(s)
    ensures Inv(BeginShutdown(s))
  {
    hide OwnersOk, QueueOk, LifecycleOk, DeliveryOk;
    if !s.stopping {
      var tasks' := CancelPending(s.tasks, s.pending.Values);
      FlagsKeep(s, tasks');
      assert forall k | k in s.pending :: s.pending[k] in s.pending.Values;
    }
  }

  /** An upgrade pushes an entry that outranks every earlier entry of its task. */
  lemma {:induction false} UpgradeQueue(tasks: seq<Task>, queue: set<QueueEntry>, n: nat, t: TaskId, task': Task)
    requires QueueOk(tasks, queue, n)
    requires t < |tasks| && !tasks[t].started && !task'.started
    requires task'.generation == tasks[t].generation + 1 && task'.newest == n
    requires Outranked(Newest(t, tasks[t]), task'.request)
    ensures QueueOk(tasks[t := task'], queue + {Newest(t, task')}, n + 1)
  {
    var tasks' := tasks[t := task'];
    forall e | e in queue
      ensures EntryOk(tasks', e)
    {
      assert EntryOk(tasks, e);
    }
    forall u | 0 <= u < |tasks'| && !tasks'[u].started
      ensures Newest(u, tasks'[u]) in queue + {Newest(t, task')}
    {
      if u != t { assert Newest(u, tasks[u]) in queue; }
    }
  }

  /** Attaching a callback or a consumer leaves queue entries as they were. */
  lemma {:induction false} AttachQueue(tasks: seq<Task>, queue: set<QueueEntry>, n: nat, t: TaskId, task': Task)
    requires QueueOk(tasks, queue, n) && t < |tasks|
    requires Newest(t, task') == Newest(t, tasks[t]) && task'.started == tasks[t].started
    requires task'.request == tasks[t].request
    ensures QueueOk(tasks[t := task'], queue, n)
  {
    var tasks' := tasks[t := task'];
    forall e | e in queue
      ensures EntryOk(tasks', e)
    {
      assert EntryOk(tasks, e);
    }
    assert forall u | 0 <= u < |tasks'| :: Newest(u, tasks'[u]) == Newest(u, tasks[u]);
  }

  lemma {:induction false} ReplaceDelivery(tasks: seq<Task>, workers: seq<Worker>, t: TaskId, task': Task)
    requires DeliveryOk(tasks, workers) && t < |tasks|
    requires !tasks[t].completed && task'.owner == tasks[t].owner && !task'.completed && Settled(task')
    ensures DeliveryOk(tasks[t := task'], workers)
  {
  }

  /** The parts of the invariant that joining a task cannot touch. */
  lemma {:induction false} JoinStage(s: State, t: TaskId, task': Task)
    requires Inv(s) && t < |s.tasks| && !s.tasks[t].completed
    requires SameStage(s.tasks[t], task') && task'.cancelled == s.tasks[t].cancelled
    requires Settled(task')
    ensures var tasks' := s.tasks[t := task'];
      && TableOk(s.experts.Keys, tasks', s.pending) && OwnersOk(tasks', s.workers)
      && LifecycleOk(s.experts, tasks', s.pending, s.workers)
      && DeliveryOk(tasks', s.workers) && CancelledOk(s.stopping, tasks', s.pending)
  {
    var tasks' := s.tasks[t := task'];
    SameStageKeeps(s.experts, s.tasks, tasks', s.pending, s.workers);
    ReplaceDelivery(s.tasks, s.workers, t, task');
  }

  lemma {:induction false} JoinQueue(s: State, t: TaskId, r: ScheduleRequest, callback: Option<Callback>)
    requires QueueOk(s.tasks, s.queue, s.nextSequence) && t < |s.tasks|
    ensures var s' := Join(s, t, r, callback);
      QueueOk(s'.tasks, s'.queue, s'.nextSequence)
  {
    hide QueueOk;
    var s' := Join(s, t, r, callback);
    var task' := s'.tasks[t];
    if s'.nextSequence != s.nextSequence {
      UpgradeQueue(s.tasks, s.queue, s.nextSequence, t, task');
    } else {
      AttachQueue(s.tasks, s.queue, s.nextSequence, t, task');
    }
  }

  lemma {:induction false} JoinedStage(task: Task, r: ScheduleRequest, callback: Option<Callback>, sequence: nat)
    ensures var joined := JoinedTask(task, r, callback, sequence);
      && SameStage(task, joined) && joined.cancelled == task.cancelled
      && joined.ran == task.ran && joined.answers == task.answers
  {
    hide MakeKey;
  }

  lemma {:induction false} JoinFrame(s: State, t: TaskId, r: ScheduleRequest, callback: Option<Callback>)
    requires t < |s.tasks|
    ensures var s' := Join(s, t, r, callback);
      && |s'.tasks| == |s.tasks|
      && s' == s.(tasks := s.tasks[t := s'.tasks[t]], queue := s'.queue, nextSequence := s'.nextSequence)
      && SameStage(s.tasks[t], s'.tasks[t]) && s'.tasks[t].cancelled == s.tasks[t].cancelled
      && s'.tasks[t].ran == s.tasks[t].ran && s'.tasks[t].answers == s.tasks[t].answers
  {
    hide JoinedTask, SameStage, Upgrades;
    JoinedStage(s.tasks[t], r, callback, s.nextSequence);
  }

  lemma {:induction false} JoinKeeps(s: State, t: TaskId, r: ScheduleRequest, callback: Option<Callback>)
    requires Inv(s) && !s.stopping
    requires t < |s.tasks| && !s.tasks[t].completed
    ensures Inv(Join(s, t, r, callback))
  {
    hide TableOk, OwnersOk, QueueOk, LifecycleOk, CancelledOk, Join;
    JoinFrame(s, t, r, callback);
    assert Settled(s.tasks[t]);
    JoinStage(s, t, Join(s, t, r, callback).tasks[t]);
    JoinQueue(s, t, r, callback);
  }

  lemma {:induction false} EnqueueQueue(tasks: seq<Task>, queue: set<QueueEntry>, n: nat, task: Task)
    requires QueueOk(tasks, queue, n)
    requires !task.started && task.newest == n
    ensures QueueOk(tasks + [task], queue + {Newest(|tasks|, task)}, n + 1)
  {
    var tasks' := tasks + [task];
    forall e | e in queue
      ensures EntryOk(tasks', e)
    {
      assert EntryOk(tasks, e);
    }
    forall u | 0 <= u < |tasks'| && !tasks'[u].started
      ensures Newest(u, tasks'[u]) in queue + {Newest(|tasks|, task)}
    {
      if u < |tasks| { assert Newest(u, tasks[u]) in queue; }
    }
  }

  lemma {:induction false} OpenedState(experts: Table, r: ScheduleRequest, table: Table)
    requires Open(experts, r) == Some(table)
    ensures r.Key() in experts && table == experts[r.Key() := table[r.Key()]]
    ensures table[r.Key()].state == Waiting(r)
    ensures experts[r.Key()].state == Ready || (experts[r.Key()].state == Failed && !r.eviction)
  {
  }

  lemma {:induction false} EnqueueLifecycle(experts: Table, table: Table, tasks: seq<Task>, pending: map<Key, TaskId>,
                         workers: seq<Worker>, task: Task)
    requires TableOk(experts.Keys, tasks, pending) && OwnersOk(tasks, workers)
    requires LifecycleOk(experts, tasks, pending, workers)
    requires task.request.Key() !in pending && !task.started && !task.completed
    requires Open(experts, task.request) == Some(table)
    ensures TableOk(table.Keys, tasks + [task], pending[task.request.Key() := |tasks|])
    ensures OwnersOk(tasks + [task], workers)
    ensures LifecycleOk(table, tasks + [task], pending[task.request.Key() := |tasks|], workers)
  {
    hide Open, FireAt, MakeKey;
    var k := task.request.Key();
    OpenedState(experts, task.request, table);
    assert table.Keys == experts.Keys;
    assert forall t | 0 <= t < |tasks| && !tasks[t].completed :: tasks[t].request.Key() != k;
    forall j | j in table && j in pending[k := |tasks|] && j != k
      ensures pending[j] < |tasks| && TaskShows(table[j].state, (tasks + [task])[pending[j]], workers)
    {
      assert TaskShows(experts[j].state, tasks[pending[j]], workers);
    }
  }

  lemma {:induction false} EnqueueKeeps(s: State, table: Table, r: ScheduleRequest, callback: Option<Callback>)
    requires Inv(s) && !s.stopping
    requires r.Key() !in s.pending
    requires Open(s.experts, r) == Some(table)
    ensures Inv(Enqueue(s, table, r, callback))
  {
    hide Open, FireAt, MakeKey, LifecycleOk;
    var task := NewTask(r, callback, s.nextSequence);
    EnqueueLifecycle(s.experts, table, s.tasks, s.pending, s.workers, task);
    EnqueueQueue(s.tasks, s.queue, s.nextSequence, task);
    OpenedState(s.experts, r, table);
    assert table.Keys == s.experts.Keys;
  }

  lemma {:induction false} ConsumeKeeps(c: Config, s: State, r: ScheduleRequest)
    requires Inv(s) && r.Key() in s.experts
    ensures Inv(Consume(c, s, r))
    ensures var s' := Consume(c, s, r);
      && s' == s.(prefetched := s'.prefetched, tasks := s'.tasks)
      && |s'.tasks| == |s.tasks|
      && (forall t | 0 <= t < |s.tasks| :: SameButFlags(s.tasks[t], s'.tasks[t]))
  {
    hide OwnersOk, QueueOk, LifecycleOk, DeliveryOk, CancelledOk, ExitsOk;
    var s' := Consume(c, s, r);
    if s'.tasks != s.tasks {
      FlagsKeep(s, s'.tasks);
    }
  }

  lemma {:induction false} ScheduleKeeps(c: Config, s: State, r: ScheduleRequest, callback: Option<Callback>)
    requires Inv(s)
    ensures Inv(Schedule(c, s, r, callback).0)
  {
    hide OwnersOk, QueueOk, LifecycleOk, DeliveryOk, CancelledOk, ExitsOk;
    var k := r.Key();
    if s.stopping || k !in s.experts {
      return;
    }
    ConsumeKeeps(c, s, r);
    var s1 := Consume(c, s, r);
    if k !in s.pending && !r.eviction && AlreadyThere(s.experts[k], r) {
    } else if k in s.pending && s.tasks[s.pending[k]].request.destination != r.destination {
    } else if k in s.pending {
      assert SameButFlags(s.tasks[s.pending[k]], s1.tasks[s.pending[k]]);
      JoinKeeps(s1, s.pending[k], r, callback);
    } else if Open(s.experts, r).Some? {
      EnqueueKeeps(s1, Open(s.experts, r).value, r, callback);
    }
  }

  lemma {:induction false} ClientKeeps(c: Config, s: State, step: Step, s': State)
    requires Inv(s) && !IsWorkerStep(step) && ClientNext(c, s, step, s')
    ensures Inv(s')
  {
    hide TableOk, OwnersOk, QueueOk, LifecycleOk, DeliveryOk, CancelledOk, ExitsOk;
    match step
    case RegisterStep(key, tier) => if key !in s.experts { RegisterKeeps(s, key, tier); }
    case ScheduleStep(request, callback) => ScheduleKeeps(c, s, request, callback);
    case CancelStep(task) =>
      if task < |s.tasks| { FlagsKeep(s, s.tasks[task := s.tasks[task].(cancelled := true)]); }
    case AcquireStep(key) => FireKeeps(s, key, Acquire);
    case ReleaseStep(key) => FireKeeps(s, key, Release);
    case ExpireStep(layer, order) => ExpireKeeps(s, layer, order);
    case AcknowledgeStep(key, tier) => AcknowledgeKeeps(s, key, tier);
    case ReconcileStep(key, tier) => FireKeeps(s, key, Reconcile(tier));
    case ShutdownStep => ShutdownKeeps(s);
  }

  // ---- worker steps ----

  /** One worker moves within or away from task t: nobody else's delivery changes. */
  lemma {:induction false} DeliveryFrame(tasks: seq<Task>, workers: seq<Worker>, t: TaskId, task': Task, w: nat,
                                        worker: Worker)
    requires DeliveryOk(tasks, workers) && t < |tasks| && w < |workers|
    requires Busy(workers[w]) ==> workers[w].task == t
    requires Busy(worker) ==> worker.task == t
    requires if UnderDelivery(t, task', workers[w := worker])
             then task'.completed && task'.ran <= task'.callbacks && task'.answers == []
             else Settled(task')
    ensures DeliveryOk(tasks[t := task'], workers[w := worker])
  {
    var tasks', workers' := tasks[t := task'], workers[w := worker];
    assert forall u | 0 <= u < |tasks'| && u != t ::
      UnderDelivery(u, tasks'[u], workers') == UnderDelivery(u, tasks[u], workers);
  }

  /** Where an owning worker finds its expert. */
  lemma {:induction false} OwnedShows(s: State, w: nat)
    requires Inv(s) && w < |s.workers| && Holds(s.workers[w])
    ensures var t := s.workers[w].task;
      && t < |s.tasks|
      && s.tasks[t].request.Key() in s.experts
      && s.tasks[t].request.Key() in s.pending
      && s.pending[s.tasks[t].request.Key()] == t
      && s.tasks[t].owner == w && s.tasks[t].started && !s.tasks[t].completed
      && Shows(s.experts[s.tasks[t].request.Key()].state, s.tasks[t].request.eviction, s.workers[w])
  {
    var t := s.workers[w].task;
    assert TaskShows(s.experts[s.tasks[t].request.Key()].state, s.tasks[t], s.workers);
  }

  lemma {:induction false} AdvanceOwners(tasks: seq<Task>, workers: seq<Worker>, w: nat, worker: Worker)
    requires OwnersOk(tasks, workers) && DeliveryOk(tasks, workers)
    requires w < |workers| && Holds(workers[w]) && Holds(worker) && worker.task == workers[w].task
    ensures OwnersOk(tasks, workers[w := worker]) && DeliveryOk(tasks, workers[w := worker])
  {
    var workers' := workers[w := worker];
    assert forall t | 0 <= t < |tasks| && tasks[t].completed ::
      UnderDelivery(t, tasks[t], workers') == UnderDelivery(t, tasks[t], workers);
  }

  lemma {:induction false} AdvanceLifecycle(experts: Table, experts': Table, tasks: seq<Task>, pending: map<Key,
                                            TaskId>, workers: seq<Worker>, w: nat, worker: Worker)
    requires TableOk(experts.Keys, tasks, pending) && OwnersOk(tasks, workers)
    requires LifecycleOk(experts, tasks, pending, workers)
    requires w < |workers| && Holds(workers[w]) && Holds(worker) && worker.task == workers[w].task
    requires experts'.Keys == experts.Keys
    requires forall k | k in experts && k != tasks[worker.task].request.Key() :: experts'[k] == experts[k]
    requires tasks[worker.task].request.Key() in experts
    requires Shows(experts'[tasks[worker.task].request.Key()].state, tasks[worker.task].request.eviction, worker)
    ensures LifecycleOk(experts', tasks, pending, workers[w := worker])
  {
    var t := worker.task;
    forall k | k in experts' && k in pending
      ensures pending[k] < |tasks| && TaskShows(experts'[k].state, tasks[pending[k]], workers[w := worker])
    {
      assert TaskShows(experts[k].state, tasks[pending[k]], workers);
      if pending[k] != t {
        assert tasks[pending[k]].request.Key() == k;
        assert k != tasks[t].request.Key();
        if tasks[pending[k]].started {
          assert workers[tasks[pending[k]].owner].task == pending[k];
        }
      }
    }
  }

  /** A worker that owns an incomplete task moves on; its expert may move too. */
  lemma {:induction false} AdvanceKeeps(s: State, w: nat, worker: Worker, experts: Table)
    requires Inv(s)
    requires w < |s.workers| && Holds(s.workers[w]) && Holds(worker) && worker.task == s.workers[w].task
    requires experts.Keys == s.experts.Keys
    requires forall k | k in s.experts && k != s.tasks[worker.task].request.Key() :: experts[k] == s.experts[k]
    requires s.tasks[worker.task].request.Key() in s.experts
    requires Shows(experts[s.tasks[worker.task].request.Key()].state, s.tasks[worker.task].request.eviction, worker)
    ensures Inv(s.(workers := s.workers[w := worker], experts := experts))
  {
    AdvanceOwners(s.tasks, s.workers, w, worker);
    AdvanceLifecycle(s.experts, experts, s.tasks, s.pending, s.workers, w, worker);
  }

  lemma {:induction false} PopNothingKeeps(s: State, w: nat, worker: Worker)
    requires Inv(s) && w < |s.workers| && s.workers[w].Idle?
    requires (set e | e in s.queue && Live(s, e)) == {}
    requires worker == if s.stopping then Exited else Idle
    ensures Inv(s.(queue := {}, workers := s.workers[w := worker]))
  {
    var live := set e | e in s.queue && Live(s, e);
    forall t | 0 <= t < |s.tasks|
      ensures s.tasks[t].started
    {
      assert !s.tasks[t].started ==> Newest(t, s.tasks[t]) in live;
    }
    var workers' := s.workers[w := worker];
    assert OwnersOk(s.tasks, workers');
    assert QueueOk(s.tasks, {}, s.nextSequence);
    IdleLifecycle(s.experts, s.tasks, s.pending, s.workers, w, worker);
    assert forall t | 0 <= t < |s.tasks| ::
      UnderDelivery(t, s.tasks[t], workers') == UnderDelivery(t, s.tasks[t], s.workers);
  }

  /** A worker that holds no task matters to no expert. */
  lemma {:induction false} IdleLifecycle(experts: Table, tasks: seq<Task>, pending: map<Key, TaskId>,
                                         workers: seq<Worker>, w: nat, worker: Worker)
    requires TableOk(experts.Keys, tasks, pending) && OwnersOk(tasks, workers)
    requires LifecycleOk(experts, tasks, pending, workers)
    requires w < |workers| && !Holds(workers[w])
    ensures LifecycleOk(experts, tasks, pending, workers[w := worker])
  {
    forall k | k in experts && k in pending
      ensures pending[k] < |tasks| && TaskShows(experts[k].state, tasks[pending[k]], workers[w := worker])
    {
      assert TaskShows(experts[k].state, tasks[pending[k]], workers);
    }
  }

  lemma {:induction false} PopQueue(tasks: seq<Task>, queue: set<QueueEntry>, n: nat, e: QueueEntry, task': Task)
    requires QueueOk(tasks, queue, n)
    requires e in queue && task'.started && task'.generation == tasks[e.task].generation
    requires forall t | 0 <= t < |tasks| && !tasks[t].started && t != e.task :: Better(e, Newest(t, tasks[t]))
    ensures QueueOk(tasks[e.task := task'], (set x | x in queue && Better(e, x)), n)
  {
    var tasks' := tasks[e.task := task'];
    forall x | x in queue
      ensures EntryOk(tasks', x)
    {
      assert EntryOk(tasks, x);
    }
    forall u | 0 <= u < |tasks'| && !tasks'[u].started
      ensures Newest(u, tasks'[u]) in (set x | x in queue && Better(e, x))
    {
      assert Newest(u, tasks[u]) in queue;
    }
  }

  lemma {:induction false} PopLifecycle(s: State, w: nat, t: TaskId)
    requires Inv(s) && w < |s.workers| && s.workers[w].Idle?
    requires t < |s.tasks| && !s.tasks[t].started
    ensures LifecycleOk(s.experts, s.tasks[t := s.tasks[t].(started := true, owner := w)], s.pending,
                        s.workers[w := Popped(t)])
  {
    var tasks' := s.tasks[t := s.tasks[t].(started := true, owner := w)];
    forall k | k in s.experts && k in s.pending
      ensures TaskShows(s.experts[k].state, tasks'[s.pending[k]], s.workers[w := Popped(t)])
    {
      assert TaskShows(s.experts[k].state, s.tasks[s.pending[k]], s.workers);
    }
  }

  lemma {:induction false} PopTable(s: State, w: nat, t: TaskId)
    requires Inv(s) && t < |s.tasks|
    ensures var tasks' := s.tasks[t := s.tasks[t].(started := true, owner := w)];
      && TableOk(s.experts.Keys, tasks', s.pending)
      && CancelledOk(s.stopping, tasks', s.pending)
  {
    hide OwnersOk, QueueOk, LifecycleOk, DeliveryOk;
  }

  lemma {:induction false} PopOwners(tasks: seq<Task>, workers: seq<Worker>, w: nat, t: TaskId)
    requires OwnersOk(tasks, workers) && w < |workers| && workers[w].Idle?
    requires t < |tasks| && !tasks[t].started
    ensures OwnersOk(tasks[t := tasks[t].(started := true, owner := w)], workers[w := Popped(t)])
  {
  }

  lemma {:induction false} PopBestKeeps(s: State, w: nat, e: QueueEntry)
    requires Inv(s) && w < |s.workers| && s.workers[w].Idle?
    requires IsBest(e, set x | x in s.queue && Live(s, x))
    ensures Inv(s.(queue := (set x | x in s.queue && Better(e, x)),
                   tasks := s.tasks[e.task := s.tasks[e.task].(started := true, owner := w)],
                   workers := s.workers[w := Popped(e.task)]))
  {
    hide TableOk, LifecycleOk, CancelledOk;
    var live := set x | x in s.queue && Live(s, x);
    assert e in live;
    var t := e.task;
    var task' := s.tasks[t].(started := true, owner := w);
    forall u | 0 <= u < |s.tasks| && !s.tasks[u].started && u != t
      ensures Better(e, Newest(u, s.tasks[u]))
    {
      assert Newest(u, s.tasks[u]) in live;
    }
    PopTable(s, w, t);
    PopOwners(s.tasks, s.workers, w, t);
    PopQueue(s.tasks, s.queue, s.nextSequence, e, task');
    PopLifecycle(s, w, t);
    assert !UnderDelivery(t, task', s.workers[w := Popped(t)]);
    DeliveryFrame(s.tasks, s.workers, t, task', w, Popped(t));
  }

  lemma {:induction false} PopKeeps(s: State, w: nat, s': State)
    requires Inv(s) && w < |s.workers| && s.workers[w].Idle?
    requires PopResult(s, w, s')
    ensures Inv(s')
  {
    var live := set e | e in s.queue && Live(s, e);
    if live == {} {
      PopNothingKeeps(s, w, if s.stopping then Exited else Idle);
    } else {
      var e :| IsBest(e, live) &&
        s' == s.(queue := (set x | x in s.queue && Better(e, x)),
                 tasks := s.tasks[e.task := s.tasks[e.task].(started := true, owner := w)],
                 workers := s.workers[w := Popped(e.task)]);
      PopBestKeeps(s, w, e);
    }
  }

  /** Trimming touches the lifecycle only by reconciling other experts. */
  lemma {:induction false} TrimGentle(experts: Table, resident: map<Key, Transfer>, prefetched: set<Key>,
                                      candidates: seq<Key>, own: Key, maximum: nat, cached: nat)
    requires forall k | k in experts :: experts[k].state != Requested
    ensures var trimmed := TrimFrom(experts, resident, prefetched, candidates, own, maximum, cached);
      && trimmed.prefetched <= prefetched
      && GentleTable(experts, trimmed.experts)
      && (own in experts ==> trimmed.experts[own] == experts[own])
    decreases |candidates|
  {
    if candidates != [] {
      var k, rest := candidates[0], candidates[1..];
      if k !in resident {
        TrimGentle(experts, resident, prefetched, rest, own, maximum, cached);
      } else if resident[k].bytes <= maximum - cached {
        TrimGentle(experts, resident, prefetched, rest, own, maximum, cached + resident[k].bytes);
      } else if k == own {
        TrimGentle(experts, resident - {k}, prefetched - {k}, rest, own, maximum, cached);
      } else if FireAt(experts, k, Reconcile(Nvme)).Some? {
        FireGentle(experts, k, Reconcile(Nvme));
        TrimGentle(FireAt(experts, k, Reconcile(Nvme)).value, resident - {k}, prefetched - {k}, rest, own,
                   maximum, cached);
      }
    }
  }

  lemma {:induction false} CommitKeeps(c: Config, s: State, w: nat, candidates: seq<Key>)
    requires Inv(s) && w < |s.workers| && s.workers[w].Readied?
    ensures Inv(CommitWith(c, s, w, s.workers[w].task, s.workers[w].transfer, candidates))
  {
    hide TableOk, OwnersOk, QueueOk, LifecycleOk, DeliveryOk, CancelledOk, ExitsOk;
    var t, transfer := s.workers[w].task, s.workers[w].transfer;
    OwnedShows(s, w);
    var own := s.tasks[t].request.Key();
    if !Speculative(s.tasks[t]) {
      AdvanceKeeps(s, w, Committed(t), s.experts);
    } else {
      forall k | k in s.experts ensures s.experts[k].state != Requested { NeverRequested(s, k); }
      var trimmed := TrimFrom(s.experts, Store(s, t, transfer), s.prefetched + {own}, candidates, own,
                              c.maximumPrefetchBytes, 0);
      TrimGentle(s.experts, Store(s, t, transfer), s.prefetched + {own}, candidates, own, c.maximumPrefetchBytes, 0);
      var worker := if trimmed.completed then Committed(t) else Failing(t, CommitAborted);
      AdvanceKeeps(s, w, worker, s.experts);
      GentleLifecycle(s.experts, trimmed.experts, s.tasks, s.pending, s.workers[w := worker]);
    }
  }

  lemma {:induction false} CompleteLifecycle(s: State, w: nat, worker: Worker)
    requires Inv(s) && w < |s.workers| && (s.workers[w].Committed? || s.workers[w].MarkedFailed?)
    ensures var t := s.workers[w].task;
      LifecycleOk(s.experts, s.tasks[t := s.tasks[t].(completed := true)], s.pending - {s.tasks[t].request.Key()},
                  s.workers[w := worker])
  {
    var t := s.workers[w].task;
    OwnedShows(s, w);
    var pending' := s.pending - {s.tasks[t].request.Key()};
    var tasks' := s.tasks[t := s.tasks[t].(completed := true)];
    forall k | k in s.experts && k in pending'
      ensures TaskShows(s.experts[k].state, tasks'[pending'[k]], s.workers[w := worker])
    {
      assert TaskShows(s.experts[k].state, s.tasks[s.pending[k]], s.workers);
      assert s.pending[k] != t;
      assert tasks'[pending'[k]] == s.tasks[s.pending[k]];
      if s.tasks[s.pending[k]].started {
        assert s.workers[s.tasks[s.pending[k]].owner].task == s.pending[k];
      }
    }
  }

  lemma {:induction false} CompleteOwners(s: State, w: nat, success: bool)
    requires Inv(s) && w < |s.workers| && Holds(s.workers[w])
    ensures var t := s.workers[w].task;
      OwnersOk(s.tasks[t := s.tasks[t].(completed := true)], s.workers[w := Delivering(t, success)])
  {
    hide QueueOk, LifecycleOk, DeliveryOk, CancelledOk, ExitsOk;
    OwnedShows(s, w);
  }

  lemma {:induction false} CompleteTable(s: State, w: nat)
    requires Inv(s) && w < |s.workers| && Holds(s.workers[w])
    ensures var t := s.workers[w].task;
      TableOk(s.experts.Keys, s.tasks[t := s.tasks[t].(completed := true)], s.pending - {s.tasks[t].request.Key()})
  {
    hide QueueOk, LifecycleOk, DeliveryOk, CancelledOk, ExitsOk;
    OwnedShows(s, w);
  }

  lemma {:induction false} CompleteKeeps(s: State, w: nat)
    requires Inv(s) && w < |s.workers| && (s.workers[w].Committed? || s.workers[w].MarkedFailed?)
    ensures Inv(Complete(s, w, s.workers[w].task, s.workers[w].Committed?))
  {
    hide OwnersOk, QueueOk, LifecycleOk;
    OwnedShows(s, w);
    var t := s.workers[w].task;
    var k := s.tasks[t].request.Key();
    var s' := Complete(s, w, t, s.workers[w].Committed?);
    CompleteLifecycle(s, w, s'.workers[w]);
    CompleteTable(s, w);
    CompleteOwners(s, w, s.workers[w].Committed?);
    assert s'.pending == s.pending - {k};
    AttachQueue(s.tasks, s.queue, s.nextSequence, t, s'.tasks[t]);
    assert UnderDelivery(t, s'.tasks[t], s'.workers);
    DeliveryFrame(s.tasks, s.workers, t, s'.tasks[t], w, s'.workers[w]);
  }

  lemma {:induction false} DeliverOwners(tasks: seq<Task>, workers: seq<Worker>, w: nat, worker: Worker)
    requires OwnersOk(tasks, workers)
    requires w < |workers| && workers[w].Delivering?
    requires worker == workers[w] || worker.Idle?
    ensures OwnersOk(tasks, workers[w := worker])
  {
  }

  lemma {:induction false} DeliverStage(experts: Table, tasks: seq<Task>, pending: map<Key, TaskId>,
                                        workers: seq<Worker>, w: nat, t: TaskId, task': Task, worker: Worker)
    requires TableOk(experts.Keys, tasks, pending) && OwnersOk(tasks, workers)
    requires LifecycleOk(experts, tasks, pending, workers)
    requires w < |workers| && workers[w].Delivering? && (worker == workers[w] || worker.Idle?)
    requires t < |tasks| && SameStage(tasks[t], task')
    ensures var tasks' := tasks[t := task'];
      && TableOk(experts.Keys, tasks', pending) && OwnersOk(tasks', workers[w := worker])
      && LifecycleOk(experts, tasks', pending, workers[w := worker])
  {
    SameStageKeeps(experts, tasks, tasks[t := task'], pending, workers);
    IdleLifecycle(experts, tasks[t := task'], pending, workers, w, worker);
    DeliverOwners(tasks[t := task'], workers, w, worker);
  }

  lemma {:induction false} DeliverKeeps(s: State, w: nat)
    requires Inv(s) && w < |s.workers| && s.workers[w].Delivering?
    ensures Inv(Deliver(s, w, s.workers[w].task, s.workers[w].success))
  {
    hide TableOk, QueueOk, LifecycleOk;
    var t := s.workers[w].task;
    var s' := Deliver(s, w, t, s.workers[w].success);
    assert UnderDelivery(t, s.tasks[t], s.workers);
    var ran, callbacks := s.tasks[t].ran, s.tasks[t].callbacks;
    assert |ran| < |callbacks| ==> ran + [callbacks[|ran|]] <= callbacks;
    assert |ran| == |callbacks| ==> ran == callbacks;
    assert s'.workers == s.workers[w := s'.workers[w]];
    AttachQueue(s.tasks, s.queue, s.nextSequence, t, s'.tasks[t]);
    DeliverStage(s.experts, s.tasks, s.pending, s.workers, w, t, s'.tasks[t], s'.workers[w]);
    DeliverAnswers(s.tasks, s.workers, w, t, s'.tasks[t], s'.workers[w]);
  }

  lemma {:induction false} DeliverAnswers(tasks: seq<Task>, workers: seq<Worker>, w: nat, t: TaskId, task': Task,
                                        worker: Worker)
    requires OwnersOk(tasks, workers) && DeliveryOk(tasks, workers)
    requires w < |workers| && workers[w].Delivering? && workers[w].task == t
    requires task'.completed && task'.owner == w && task'.ran <= task'.callbacks
    requires (worker == workers[w] && task'.answers == []) || (worker.Idle? && Settled(task'))
    ensures DeliveryOk(tasks[t := task'], workers[w := worker])
  {
    DeliveryFrame(tasks, workers, t, task', w, worker);
  }

  lemma {:induction false} CheckKeeps(s: State, w: nat)
    requires Inv(s) && w < |s.workers| && s.workers[w].Popped?
    ensures s.workers[w].task < |s.tasks| && Inv(CheckCancelled(s, w, s.workers[w].task))
  {
    hide TableOk, OwnersOk, QueueOk, LifecycleOk, DeliveryOk, CancelledOk, ExitsOk;
    OwnedShows(s, w);
    AdvanceKeeps(s, w, CheckCancelled(s, w, s.workers[w].task).workers[w], s.experts);
  }

  /** The loading guard never refuses, so a worker never ends the program. */
  lemma {:induction false} BeginTransferKeeps(s: State, w: nat)
    requires Inv(s) && w < |s.workers| && s.workers[w].Cleared?
    ensures s.workers[w].task < |s.tasks|
    ensures BeginTransfer(s, w, s.workers[w].task).Some?
    ensures Inv(BeginTransfer(s, w, s.workers[w].task).value)
  {
    hide TableOk, OwnersOk, QueueOk, LifecycleOk, DeliveryOk, CancelledOk, ExitsOk;
    OwnedShows(s, w);
    var s' := BeginTransfer(s, w, s.workers[w].task).value;
    AdvanceKeeps(s, w, s'.workers[w], s'.experts);
  }

  lemma {:induction false} AnswerKeeps(s: State, w: nat, a: TransferAnswer)
    requires Inv(s) && w < |s.workers| && s.workers[w].Transferring?
    ensures s.workers[w].task < |s.tasks| && Inv(TakeAnswer(s, w, s.workers[w].task, a))
  {
    hide TableOk, OwnersOk, QueueOk, LifecycleOk, DeliveryOk, CancelledOk, ExitsOk;
    OwnedShows(s, w);
    AdvanceKeeps(s, w, TakeAnswer(s, w, s.workers[w].task, a).workers[w], s.experts);
  }

  /** The ready guard never refuses either. */
  lemma {:induction false} FinishTransferKeeps(s: State, w: nat)
    requires Inv(s) && w < |s.workers| && s.workers[w].Answered?
    ensures s.workers[w].task < |s.tasks|
    ensures FinishTransfer(s, w, s.workers[w].task, s.workers[w].transfer).workers[w].Readied?
    ensures Inv(FinishTransfer(s, w, s.workers[w].task, s.workers[w].transfer))
  {
    hide TableOk, OwnersOk, QueueOk, LifecycleOk, DeliveryOk, CancelledOk, ExitsOk;
    OwnedShows(s, w);
    var s' := FinishTransfer(s, w, s.workers[w].task, s.workers[w].transfer);
    AdvanceKeeps(s, w, s'.workers[w], s'.experts);
  }

  lemma {:induction false} MarkFailedKeeps(s: State, w: nat)
    requires Inv(s) && w < |s.workers| && s.workers[w].Failing?
    ensures s.workers[w].task < |s.tasks|
    ensures FireAt(s.experts, s.tasks[s.workers[w].task].request.Key(), MarkFailed).Some?
    ensures Inv(s.(experts := FireAt(s.experts, s.tasks[s.workers[w].task].request.Key(), MarkFailed).value,
                   workers := s.workers[w := MarkedFailed(s.workers[w].task)]))
  {
    hide TableOk, OwnersOk, QueueOk, LifecycleOk, DeliveryOk, CancelledOk, ExitsOk;
    OwnedShows(s, w);
    var table := FireAt(s.experts, s.tasks[s.workers[w].task].request.Key(), MarkFailed).value;
    AdvanceKeeps(s, w, MarkedFailed(s.workers[w].task), table);
  }

  lemma {:induction false} WorkerKeeps(c: Config, s: State, step: Step, s': State)
    requires Inv(s) && IsWorkerStep(step) && WorkerNext(c, s, step, s')
    ensures Inv(s')
  {
    match step
    case PopStep(w) => PopKeeps(s, w, s');
    case CheckStep(w) => CheckKeeps(s, w);
    case BeginTransferStep(w) => BeginTransferKeeps(s, w);
    case AnswerStep(w, answer) => AnswerKeeps(s, w, answer);
    case MarkReadyStep(w) => FinishTransferKeeps(s, w);
    case CommitStep(w, candidates) => CommitKeeps(c, s, w, candidates);
    case MarkFailedStep(w) => MarkFailedKeeps(s, w);
    case CompleteStep(w) => CompleteKeeps(s, w);
    case DeliverStep(w) => DeliverKeeps(s, w);
  }

  /** Every step, by any client or worker, keeps the invariant. */
  lemma {:induction false} StepKeeps(c: Config, s: State, step: Step, s': State)
    requires Inv(s) && Next(c, s, step, s')
    ensures Inv(s')
  {
    if IsWorkerStep(step) {
      WorkerKeeps(c, s, step, s');
    } else {
      ClientKeeps(c, s, step, s');
    }
  }

  /** Every state of every run satisfies the invariant. */
  lemma {:induction false} RunKeeps(c: Config, workerCount: nat, trace: seq<State>, steps: seq<Step>, i: nat)
    requires IsRun(c, workerCount, trace, steps) && i < |trace|
    ensures Inv(trace[i])
  {
    if i == 0 {
      InitialInv(workerCount);
    } else {
      RunKeeps(c, workerCount, trace, steps, i - 1);
      StepKeeps(c, trace[i - 1], steps[i - 1], trace[i]);
    }
  }
}
