/**
The asynchronous scheduler as a transition system
(src/scheduler/Scheduler.cpp). One step is one section that the source runs
under a lock: client calls, the worker's sections, and the answer of the
transfer engine. A run is any sequence of steps, so every interleaving of
clients and workers is a run.
 */
module SchedulerModel {
  import opened Wrappers
  import opened ExpertStates
  import opened Sums

  datatype Priority = BackgroundMaintenance | CacheWarming | PredictedNextLayer | ActiveInference {
    function Rank(): int {
      match this
      case BackgroundMaintenance => 100
      case CacheWarming => 200
      case PredictedNextLayer => 300
      case ActiveInference => 400
    }
  }

  datatype ScheduleRequest = ScheduleRequest(
    layer: Id32,
    expert: Id32,
    destination: MemoryTier,
    priority: Priority,
    eviction: bool,
    score: real)
  {
    function Key(): Key { MakeKey(layer, expert) }
  }

  type Callback = nat
  type TaskId = nat

  /** A completed transfer; only the size of its record matters here. */
  datatype Transfer = Transfer(bytes: nat)

  /** A scheduled task. The last four fields are history: the worker that
      started it, the sequence number of its newest queue entry, the callbacks
      that have run, and the values its promise has been given. */
  datatype Task = Task(
    request: ScheduleRequest,
    callbacks: seq<Callback>,
    generation: nat,
    started: bool,
    completed: bool,
    cancelled: bool,
    prefetchRequest: bool,
    activeConsumer: bool,
    owner: nat,
    newest: nat,
    ran: seq<Callback>,
    answers: seq<bool>)

  datatype QueueEntry = QueueEntry(
    task: TaskId,
    priority: Priority,
    sequence: nat,
    generation: nat,
    score: real)

  /** The order of the priority queue: priority, then score, then age. */
  predicate Better(a: QueueEntry, b: QueueEntry) {
    || a.priority.Rank() > b.priority.Rank()
    || (a.priority == b.priority && a.score > b.score)
    || (a.priority == b.priority && a.score == b.score && a.sequence < b.sequence)
  }

  datatype FailureCause = CancelledEarly | TransferCancelled | TransferFailed | GuardRefused | CommitAborted

  /** Where one worker thread stands between two of its sections. */
  datatype Worker =
    | Idle
    | Popped(task: TaskId)
    | Cleared(task: TaskId)
    | Transferring(task: TaskId)
    | Answered(task: TaskId, transfer: Transfer)
    | Readied(task: TaskId, transfer: Transfer)
    | Committed(task: TaskId)
    | Failing(task: TaskId, cause: FailureCause)
    | MarkedFailed(task: TaskId)
    | Delivering(task: TaskId, success: bool)
    | Exited

  datatype Config = Config(profiled: bool, maximumPrefetchBytes: nat)

  datatype State = State(
    experts: Table,
    tasks: seq<Task>,
    pending: map<Key, TaskId>,
    queue: set<QueueEntry>,
    resident: map<Key, Transfer>,
    prefetched: set<Key>,
    nextSequence: nat,
    stopping: bool,
    workers: seq<Worker>)

  ghost function Initial(workerCount: nat): State {
    State(map[], [], map[], {}, map[], {}, 0, false, seq(workerCount, _ => Idle))
  }

  datatype ScheduleOutcome = Rejected | ReadyNow | Coalesced(task: TaskId) | Accepted(task: TaskId)

  // ---- client sections ----

  ghost predicate PendingOk(s: State) {
    forall k | k in s.pending :: s.pending[k] < |s.tasks|
  }

  /** A call that outranks a task no worker has started. */
  predicate Upgrades(task: Task, r: ScheduleRequest) {
    && !task.started
    && (r.priority.Rank() > task.request.priority.Rank()
        || (r.priority == task.request.priority && r.score > task.request.score))
  }

  /** A pending task after a caller has joined it: the caller's callback is
      attached, and an upgrade starts a new generation. */
  function JoinedTask(task: Task, r: ScheduleRequest, callback: Option<Callback>, sequence: nat): Task {
    var joined := task.(
      callbacks := task.callbacks + (if callback.Some? then [callback.value] else []),
      activeConsumer := task.activeConsumer || r.priority == ActiveInference);
    if !Upgrades(task, r) then joined
    else joined.(
      request := task.request.(
        priority := if r.priority.Rank() > task.request.priority.Rank() then r.priority else task.request.priority,
        score := if r.score > task.request.score then r.score else task.request.score),
      generation := task.generation + 1,
      newest := sequence)
  }

  /** Joining; an upgraded task gets a fresh queue entry, the old one goes stale. */
  function Join(s: State, t: TaskId, r: ScheduleRequest, callback: Option<Callback>): State
    requires t < |s.tasks|
  {
    var task := JoinedTask(s.tasks[t], r, callback, s.nextSequence);
    var joined := s.(tasks := s.tasks[t := task]);
    if !Upgrades(s.tasks[t], r) then joined
    else joined.(
      queue := s.queue + {QueueEntry(t, task.request.priority, s.nextSequence, task.generation, task.request.score)},
      nextSequence := s.nextSequence + 1)
  }

  /** The lifecycle transitions that open a new task. */
  function Open(table: Table, r: ScheduleRequest): Option<Table> {
    if r.eviction then FireAt(table, r.Key(), BeginEviction(r.destination))
    else match FireAt(table, r.Key(), Request(r.destination))
      case Some(requested) => FireAt(requested, r.Key(), MarkQueued)
      case None => None
  }

  function NewTask(r: ScheduleRequest, callback: Option<Callback>, sequence: nat): Task {
    Task(r, if callback.Some? then [callback.value] else [], 0, false, false, false,
         r.priority == PredictedNextLayer, r.priority == ActiveInference, 0, sequence, [], [])
  }

  /** Opening a task for an expert that has none. */
  function Enqueue(s: State, table: Table, r: ScheduleRequest, callback: Option<Callback>): State {
    s.(experts := table,
       tasks := s.tasks + [NewTask(r, callback, s.nextSequence)],
       pending := s.pending[r.Key() := |s.tasks|],
       queue := s.queue + {QueueEntry(|s.tasks|, r.priority, s.nextSequence, 0, r.score)},
       nextSequence := s.nextSequence + 1)
  }

  predicate AlreadyThere(e: ExpertState, r: ScheduleRequest) {
    e.currentLocation == r.destination && (e.state == Ready || e.state == InUse)
  }

  /** Active demand takes a ready prefetch out of the speculative set, or
      marks a prefetch that is still pending as consumed. Without a profiler
      the source skips this whole section. */
  function Consume(c: Config, s: State, r: ScheduleRequest): State
    requires PendingOk(s) && r.Key() in s.experts
  {
    var k := r.Key();
    if !c.profiled || r.priority != ActiveInference then s
    else if k in s.prefetched then s.(prefetched := s.prefetched - {k})
    else if k in s.pending && s.tasks[s.pending[k]].prefetchRequest
            && s.experts[k].currentLocation == r.destination && s.experts[k].state == Ready then
      s.(tasks := s.tasks[s.pending[k] := s.tasks[s.pending[k]].(activeConsumer := true)])
    else s
  }

  function Schedule(c: Config, s: State, r: ScheduleRequest, callback: Option<Callback>): (State, ScheduleOutcome)
    requires PendingOk(s)
  {
    var k := r.Key();
    if s.stopping || k !in s.experts then (s, Rejected) else
    var s1 := Consume(c, s, r);
    if k !in s.pending && !r.eviction && AlreadyThere(s.experts[k], r) then
      (if r.priority == PredictedNextLayer then s1.(prefetched := s1.prefetched + {k}) else s1, ReadyNow)
    else if k in s.pending && s.tasks[s.pending[k]].request.destination != r.destination then
      (s1, Rejected)
    else if k in s.pending then
      (Join(s1, s.pending[k], r, callback), Coalesced(s.pending[k]))
    else match Open(s.experts, r)
      case Some(table) => (Enqueue(s1, table, r, callback), Accepted(|s.tasks|))
      case None => (s1, Rejected)
  }

  /** Expiry walks the prefetched keys in an arbitrary order and stops where
      the lifecycle table refuses to reconcile; what it already did stays. */
  function ExpireFrom(s: State, layer: Id32, order: seq<Key>): (State, bool)
    decreases |order|
  {
    if order == [] then (s, true)
    else if KeyLayer(order[0]) >= layer then ExpireFrom(s, layer, order[1..])
    else
      var dropped := s.(resident := s.resident - {order[0]});
      match FireAt(s.experts, order[0], Reconcile(Nvme))
      case None => (dropped, false)
      case Some(table) =>
        ExpireFrom(dropped.(experts := table, prefetched := s.prefetched - {order[0]}), layer, order[1..])
  }

  /** An enumeration of a set: each member once. */
  ghost predicate Enumerates(order: seq<Key>, keys: set<Key>) {
    && (forall k :: k in order <==> k in keys)
    && (forall i, j | 0 <= i < j < |order| :: order[i] != order[j])
  }

  function Acknowledge(s: State, k: Key, tier: MemoryTier): State {
    if k in s.pending then s else
    var dropped := s.(resident := s.resident - {k}, prefetched := s.prefetched - {k});
    match FireAt(s.experts, k, Reconcile(tier))
    case Some(table) => dropped.(experts := table)
    case None => dropped
  }

  function ReconcileResidency(s: State, k: Key, tier: MemoryTier): State {
    if k in s.pending || k in s.resident then s else FireOrKeep(s, k, Reconcile(tier))
  }

  function FireOrKeep(s: State, k: Key, a: Action): State {
    match FireAt(s.experts, k, a)
    case Some(table) => s.(experts := table)
    case None => s
  }

  function CancelPending(tasks: seq<Task>, pending: set<TaskId>): (r: seq<Task>)
    ensures |r| == |tasks|
    ensures forall t | 0 <= t < |tasks| ::
      r[t] == if t in pending then tasks[t].(cancelled := true) else tasks[t]
  {
    seq(|tasks|, t requires 0 <= t < |tasks| =>
      if t in pending then tasks[t].(cancelled := true) else tasks[t])
  }

  function BeginShutdown(s: State): State {
    if s.stopping then s
    else s.(stopping := true, tasks := CancelPending(s.tasks, s.pending.Values))
  }

  // ---- worker sections ----

  predicate Live(s: State, e: QueueEntry) {
    && e.task < |s.tasks|
    && !s.tasks[e.task].completed
    && !s.tasks[e.task].started
    && e.generation == s.tasks[e.task].generation
  }

  ghost predicate IsBest(e: QueueEntry, entries: set<QueueEntry>) {
    e in entries && forall x | x in entries && x != e :: Better(e, x)
  }

  /** What popping must achieve: the best live entry starts its task, every
      entry that outranks it is gone, every other entry stays. With nothing
      live the queue is emptied, and a stopping worker exits. */
  ghost predicate PopResult(s: State, w: nat, s': State)
    requires w < |s.workers|
  {
    var live := set e | e in s.queue && Live(s, e);
    if live == {} then
      s' == s.(queue := {}, workers := s.workers[w := if s.stopping then Exited else Idle])
    else
      exists e | IsBest(e, live) ::
        s' == s.(queue := (set x | x in s.queue && Better(e, x)),
                 tasks := s.tasks[e.task := s.tasks[e.task].(started := true, owner := w)],
                 workers := s.workers[w := Popped(e.task)])
  }

  function CheckCancelled(s: State, w: nat, t: TaskId): State
    requires w < |s.workers| && t < |s.tasks|
  {
    s.(workers := s.workers[w := if s.tasks[t].cancelled then Failing(t, CancelledEarly) else Cleared(t)])
  }

  /** Loading starts, unless the task is an eviction, which already has its state. */
  function BeginTransfer(s: State, w: nat, t: TaskId): Option<State>
    requires w < |s.workers| && t < |s.tasks|
  {
    var moved := s.(workers := s.workers[w := Transferring(t)]);
    if s.tasks[t].request.eviction then Some(moved)
    else match FireAt(s.experts, s.tasks[t].request.Key(), MarkLoading)
      case Some(table) => Some(moved.(experts := table))
      case None => None
  }

  datatype TransferAnswer = Completed(transfer: Transfer) | AnsweredCancelled | AnsweredError

  function TakeAnswer(s: State, w: nat, t: TaskId, a: TransferAnswer): State
    requires w < |s.workers|
  {
    s.(workers := s.workers[w := match a
      case Completed(transfer) => Answered(t, transfer)
      case AnsweredCancelled => Failing(t, TransferCancelled)
      case AnsweredError => Failing(t, TransferFailed)])
  }

  /** The expert becomes ready where the transfer put it. This guard is inside
      the try block: a refusal would fail the task. */
  function FinishTransfer(s: State, w: nat, t: TaskId, transfer: Transfer): State
    requires w < |s.workers| && t < |s.tasks|
  {
    match FireAt(s.experts, s.tasks[t].request.Key(), MarkReady(s.tasks[t].request.destination))
    case Some(table) => s.(experts := table, workers := s.workers[w := Readied(t, transfer)])
    case None => s.(workers := s.workers[w := Failing(t, GuardRefused)])
  }

  predicate Ascending(keys: seq<Key>) {
    forall i, j | 0 <= i < j < |keys| :: keys[i] < keys[j]
  }

  datatype Trimmed = Trimmed(
    experts: Table,
    resident: map<Key, Transfer>,
    prefetched: set<Key>,
    completed: bool)

  /** The trim loop over the remaining candidates, with the bytes kept so far. */
  function TrimFrom(experts: Table, resident: map<Key, Transfer>, prefetched: set<Key>,
                    candidates: seq<Key>, own: Key, maximum: nat, cached: nat): Trimmed
    decreases |candidates|
  {
    if candidates == [] then Trimmed(experts, resident, prefetched, true)
    else
      var k, rest := candidates[0], candidates[1..];
      if k !in resident then
        TrimFrom(experts, resident, prefetched, rest, own, maximum, cached)
      else if resident[k].bytes <= maximum - cached then
        TrimFrom(experts, resident, prefetched, rest, own, maximum, cached + resident[k].bytes)
      else if k == own then
        TrimFrom(experts, resident - {k}, prefetched - {k}, rest, own, maximum, cached)
      else match FireAt(experts, k, Reconcile(Nvme))
        case Some(table) =>
          TrimFrom(table, resident - {k}, prefetched - {k}, rest, own, maximum, cached)
        case None =>
          Trimmed(experts, resident - {k}, prefetched - {k}, false)
  }

  /** Storing a finished transfer. */
  function Store(s: State, t: TaskId, transfer: Transfer): map<Key, Transfer>
    requires t < |s.tasks|
  {
    var k := s.tasks[t].request.Key();
    if s.tasks[t].request.destination == Nvme then s.resident - {k} else s.resident[k := transfer]
  }

  predicate Speculative(task: Task) {
    task.prefetchRequest && !task.activeConsumer
  }

  function CommitWith(c: Config, s: State, w: nat, t: TaskId, transfer: Transfer, candidates: seq<Key>): State
    requires w < |s.workers| && t < |s.tasks|
  {
    var resident := Store(s, t, transfer);
    var own := s.tasks[t].request.Key();
    if !Speculative(s.tasks[t]) then
      s.(resident := resident, workers := s.workers[w := Committed(t)])
    else
      var trimmed := TrimFrom(s.experts, resident, s.prefetched + {own}, candidates, own, c.maximumPrefetchBytes, 0);
      s.(experts := trimmed.experts, resident := trimmed.resident, prefetched := trimmed.prefetched,
         workers := s.workers[w := if trimmed.completed then Committed(t) else Failing(t, CommitAborted)])
  }

  function Complete(s: State, w: nat, t: TaskId, success: bool): State
    requires w < |s.workers| && t < |s.tasks|
  {
    var k := s.tasks[t].request.Key();
    s.(tasks := s.tasks[t := s.tasks[t].(completed := true)],
       pending := if k in s.pending && s.pending[k] == t then s.pending - {k} else s.pending,
       workers := s.workers[w := Delivering(t, success)])
  }

  /** One callback, or the promise once no callback is left. */
  function Deliver(s: State, w: nat, t: TaskId, success: bool): State
    requires w < |s.workers| && t < |s.tasks|
  {
    var task := s.tasks[t];
    if |task.ran| < |task.callbacks| then
      s.(tasks := s.tasks[t := task.(ran := task.ran + [task.callbacks[|task.ran|]])])
    else
      s.(tasks := s.tasks[t := task.(answers := task.answers + [success])], workers := s.workers[w := Idle])
  }

  // ---- steps and runs ----

  datatype Step =
    | RegisterStep(key: Key, tier: MemoryTier)
    | ScheduleStep(request: ScheduleRequest, callback: Option<Callback>)
    | CancelStep(task: TaskId)
    | AcquireStep(key: Key)
    | ReleaseStep(key: Key)
    | ExpireStep(layer: Id32, order: seq<Key>)
    | AcknowledgeStep(key: Key, tier: MemoryTier)
    | ReconcileStep(key: Key, tier: MemoryTier)
    | ShutdownStep
    | PopStep(worker: nat)
    | CheckStep(worker: nat)
    | BeginTransferStep(worker: nat)
    | AnswerStep(worker: nat, answer: TransferAnswer)
    | MarkReadyStep(worker: nat)
    | CommitStep(worker: nat, candidates: seq<Key>)
    | MarkFailedStep(worker: nat)
    | CompleteStep(worker: nat)
    | DeliverStep(worker: nat)

  predicate IsWorkerStep(step: Step) {
    !(step.RegisterStep? || step.ScheduleStep? || step.CancelStep? || step.AcquireStep? || step.ReleaseStep?
      || step.ExpireStep? || step.AcknowledgeStep? || step.ReconcileStep? || step.ShutdownStep?)
  }

  predicate TaskBound(s: State, worker: Worker) {
    worker.Idle? || worker.Exited? || worker.task < |s.tasks|
  }

  /** A worker section can run only at its own place in the loop. */
  ghost predicate At(s: State, w: nat) {
    w < |s.workers| && TaskBound(s, s.workers[w])
  }

  ghost predicate ClientNext(c: Config, s: State, step: Step, s': State)
    requires !IsWorkerStep(step)
  {
    match step
    case RegisterStep(key, tier) =>
      s' == if key in s.experts then s else s.(experts := s.experts[key := ExpertState(tier, tier, Ready, 0)])
    case ScheduleStep(request, callback) =>
      PendingOk(s) && s' == Schedule(c, s, request, callback).0
    case CancelStep(task) =>
      s' == if task < |s.tasks| then s.(tasks := s.tasks[task := s.tasks[task].(cancelled := true)]) else s
    case AcquireStep(key) => s' == FireOrKeep(s, key, Acquire)
    case ReleaseStep(key) => s' == FireOrKeep(s, key, Release)
    case ExpireStep(layer, order) =>
      Enumerates(order, s.prefetched) && s' == ExpireFrom(s, layer, order).0
    case AcknowledgeStep(key, tier) => s' == Acknowledge(s, key, tier)
    case ReconcileStep(key, tier) => s' == ReconcileResidency(s, key, tier)
    case ShutdownStep => s' == BeginShutdown(s)
  }

  /** The worker sections. The loading guard is outside the try block: a
      refusal there would end the program, so no step follows it. */
  ghost predicate WorkerNext(c: Config, s: State, step: Step, s': State)
    requires IsWorkerStep(step)
  {
    var w := step.worker;
    At(s, w) &&
    match step
    case PopStep(_) => s.workers[w].Idle? && (s.stopping || s.queue != {}) && PopResult(s, w, s')
    case CheckStep(_) => s.workers[w].Popped? && s' == CheckCancelled(s, w, s.workers[w].task)
    case BeginTransferStep(_) =>
      s.workers[w].Cleared? && BeginTransfer(s, w, s.workers[w].task) == Some(s')
    case AnswerStep(_, answer) =>
      && s.workers[w].Transferring?
      && (s.tasks[s.workers[w].task].request.destination == Nvme ==> answer == AnsweredError)
      && s' == TakeAnswer(s, w, s.workers[w].task, answer)
    case MarkReadyStep(_) =>
      && s.workers[w].Answered?
      && s' == FinishTransfer(s, w, s.workers[w].task, s.workers[w].transfer)
    case CommitStep(_, candidates) =>
      && s.workers[w].Readied?
      && Ascending(candidates)
      && (forall k :: k in candidates <==> k in s.prefetched + {s.tasks[s.workers[w].task].request.Key()})
      && s' == CommitWith(c, s, w, s.workers[w].task, s.workers[w].transfer, candidates)
    case MarkFailedStep(_) =>
      && s.workers[w].Failing?
      && FireAt(s.experts, s.tasks[s.workers[w].task].request.Key(), MarkFailed).Some?
      && s' == s.(experts := FireAt(s.experts, s.tasks[s.workers[w].task].request.Key(), MarkFailed).value,
                  workers := s.workers[w := MarkedFailed(s.workers[w].task)])
    case CompleteStep(_) =>
      && (s.workers[w].Committed? || s.workers[w].MarkedFailed?)
      && s' == Complete(s, w, s.workers[w].task, s.workers[w].Committed?)
    case DeliverStep(_) =>
      s.workers[w].Delivering? && s' == Deliver(s, w, s.workers[w].task, s.workers[w].success)
  }

  ghost predicate Next(c: Config, s: State, step: Step, s': State) {
    if IsWorkerStep(step) then WorkerNext(c, s, step, s') else ClientNext(c, s, step, s')
  }

  /** A run: a trace of states that starts with all workers idle and nothing
      registered, each next to the one before it by the step between them. */
  ghost predicate IsRun(c: Config, workerCount: nat, trace: seq<State>, steps: seq<Step>) {
    && |trace| == |steps| + 1
    && trace[0] == Initial(workerCount)
    && forall i | 0 <= i < |steps| :: Next(c, trace[i], steps[i], trace[i + 1])
  }
}
