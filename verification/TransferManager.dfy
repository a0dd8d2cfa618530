/**
The transfer engine (src/memory/TransferManager.cpp): a priority queue of
requests, worker threads that move one expert at a time, a cancel flag that
anyone may set at any moment, and a shutdown that drains the queue. Each step
below is one section under the lock, or the stretch between two reads of the
cancel flag.
 */
module TransferModel {
  import opened Wrappers
  import opened ByteValues
  import opened Bytes
  import opened ExpertStates

  /** A request with the buffers it brings; the device buffer may belong to
      another backend. */
  datatype TransferRequest = TransferRequest(
    key: Key,
    source: MemoryTier,
    destination: MemoryTier,
    priority: int,
    host: Option<Bytes>,
    pinned: Option<Bytes>,
    device: Option<Bytes>,
    sameBackend: bool,
    callback: bool)

  datatype Answer =
    | Completed(tier: MemoryTier, bytes: Bytes, nvmeBytes: nat, ramToVramBytes: nat, order: nat)
    | Cancelled
    | Erred

  type TaskId = nat

  /** History fields: how often the callback ran, and what the promise was given. */
  datatype Task = Task(
    request: TransferRequest,
    sequence: nat,
    cancelled: bool,
    calls: nat,
    answers: seq<Answer>)

  /** Where a worker stands with its task. */
  datatype Phase =
    | Taken
    | Opened
    | Sourced(bytes: Bytes)
    | Moving(bytes: Bytes)
    | Moved(bytes: Bytes)
    | Finishing(bytes: Bytes)

  /** The stretches still ahead of a phase. */
  function PhaseLeft(phase: Phase): nat {
    match phase
    case Taken => 6
    case Opened => 5
    case Sourced(_) => 4
    case Moving(_) => 3
    case Moved(_) => 2
    case Finishing(_) => 1
  }

  datatype Worker = Idle | Holding(task: TaskId, phase: Phase) | Exited

  datatype State = State(
    tasks: seq<Task>,
    queue: set<TaskId>,
    nextSequence: nat,
    nextCompletion: nat,
    stopping: bool,
    workers: seq<Worker>)

  /** The stored experts, by key: what the loader reads and verifies. */
  type Library = map<Key, Bytes>

  /** The buffer a request brings for its source tier. */
  function Brought(r: TransferRequest): Option<Bytes> {
    match r.source
    case PinnedRam => r.pinned
    case Vram => if r.sameBackend then r.device else None
    case Ram => r.host
    case Nvme => None
  }

  /** The bytes a request moves: the stored expert, or a buffer of exactly its size. */
  function Source(library: Library, r: TransferRequest): Option<Bytes> {
    if r.key !in library then None
    else if r.source == Nvme then Some(library[r.key])
    else if Brought(r).Some? && |Brought(r).value| == |library[r.key]| then Brought(r)
    else None
  }

  /** Moves that call the backend, and so can fail. */
  predicate UsesBackend(r: TransferRequest) {
    || r.destination == PinnedRam
    || (r.destination == Ram && r.source == Vram)
    || (r.destination == Vram && r.source != Vram)
  }

  /** What the stretch of worker code from one phase leads to: the next phase,
      or an answer and whether the callback was called. */
  datatype Verdict = Continue(phase: Phase) | Answered(answer: Answer, called: bool)

  /** One stretch of the worker loop. `cancelled` is what a read of the cancel
      flag returns there, `fault` whether the loader, the backend or the
      callback throws there. */
  function Stretch(library: Library, r: TransferRequest, phase: Phase, cancelled: bool, fault: bool, order: nat)
    : Verdict
  {
    match phase
    case Taken => if cancelled then Answered(Cancelled, false) else Continue(Opened)
    case Opened =>
      if (fault && r.source == Nvme) || Source(library, r) == None then Answered(Erred, false)
      else Continue(Sourced(Source(library, r).value))
    case Sourced(bytes) => if cancelled then Answered(Cancelled, false) else Continue(Moving(bytes))
    case Moving(bytes) =>
      if r.destination == Nvme || (fault && UsesBackend(r)) then Answered(Erred, false)
      else if r.destination == Vram && r.source == Vram then Continue(Finishing(bytes))
      else Continue(Moved(bytes))
    case Moved(bytes) => if cancelled then Answered(Cancelled, false) else Continue(Finishing(bytes))
    case Finishing(bytes) =>
      if r.callback && fault then Answered(Erred, true)
      else Answered(Delivery(r, bytes, order), r.callback)
  }

  function Delivery(r: TransferRequest, bytes: Bytes, order: nat): Answer {
    Completed(r.destination, bytes,
              if r.source == Nvme then |bytes| else 0,
              if r.destination == Vram && r.source != Vram then |bytes| else 0,
              order)
  }

  function Submit(s: State, r: TransferRequest): Option<State> {
    if r.destination == Nvme || s.stopping then None
    else Some(s.(tasks := s.tasks + [Task(r, s.nextSequence, false, 0, [])],
                 queue := s.queue + {|s.tasks|},
                 nextSequence := s.nextSequence + 1))
  }

  /** Submitting when it is refused leaves the engine as it was. */
  function Accept(s: State, r: TransferRequest): State {
    match Submit(s, r)
    case Some(next) => next
    case None => s
  }

  function CancelAll(tasks: seq<Task>, these: set<TaskId>): (r: seq<Task>)
    ensures |r| == |tasks|
    ensures forall t | 0 <= t < |tasks| ::
      r[t] == if t in these then tasks[t].(cancelled := true) else tasks[t]
  {
    seq(|tasks|, t requires 0 <= t < |tasks| => if t in these then tasks[t].(cancelled := true) else tasks[t])
  }

  function Stop(s: State): State {
    if s.stopping then s else s.(stopping := true, tasks := CancelAll(s.tasks, s.queue))
  }

  /** The queue order: higher priority first, then earlier submission. */
  predicate Before(a: Task, b: Task) {
    a.request.priority > b.request.priority
    || (a.request.priority == b.request.priority && a.sequence < b.sequence)
  }

  ghost predicate IsTop(tasks: seq<Task>, queue: set<TaskId>, t: TaskId) {
    t in queue && t < |tasks|
    && forall x: TaskId | x in queue && x != t :: x < |tasks| && Before(tasks[t], tasks[x])
  }

  function Settle(task: Task, answer: Answer, called: bool): Task {
    task.(answers := task.answers + [answer], calls := task.calls + if called then 1 else 0)
  }

  function Advance(library: Library, s: State, w: nat, fault: bool): State
    requires w < |s.workers| && s.workers[w].Holding? && s.workers[w].task < |s.tasks|
  {
    var t, phase := s.workers[w].task, s.workers[w].phase;
    var s1 := if phase.Finishing? then s.(nextCompletion := s.nextCompletion + 1) else s;
    match Stretch(library, s.tasks[t].request, phase, s.tasks[t].cancelled, fault, s.nextCompletion)
    case Continue(next) => s1.(workers := s.workers[w := Holding(t, next)])
    case Answered(answer, called) =>
      s1.(tasks := s.tasks[t := Settle(s.tasks[t], answer, called)], workers := s.workers[w := Idle])
  }

  datatype Step =
    | SubmitStep(request: TransferRequest)
    | CancelStep(task: TaskId)
    | StopStep
    | TakeStep(worker: nat, task: TaskId)
    | AdvanceStep(worker: nat, fault: bool)
    | ExitStep(worker: nat)

  ghost predicate Next(library: Library, s: State, step: Step, s': State) {
    match step
    case SubmitStep(r) => s' == Accept(s, r)
    case CancelStep(t) =>
      t < |s.tasks| && s' == s.(tasks := s.tasks[t := s.tasks[t].(cancelled := true)])
    case StopStep => s' == Stop(s)
    case TakeStep(w, t) =>
      && w < |s.workers| && s.workers[w].Idle? && IsTop(s.tasks, s.queue, t)
      && s' == s.(queue := s.queue - {t}, workers := s.workers[w := Holding(t, Taken)])
    case AdvanceStep(w, fault) =>
      && w < |s.workers| && s.workers[w].Holding? && s.workers[w].task < |s.tasks|
      && s' == Advance(library, s, w, fault)
    case ExitStep(w) =>
      && w < |s.workers| && s.workers[w].Idle? && s.stopping && s.queue == {}
      && s' == s.(workers := s.workers[w := Exited])
  }

  ghost function Initial(workerCount: nat): State {
    State([], {}, 0, 0, false, seq(workerCount, _ => Idle))
  }

  ghost predicate IsRun(library: Library, workerCount: nat, trace: seq<State>, steps: seq<Step>) {
    && |trace| == |steps| + 1
    && trace[0] == Initial(workerCount)
    && forall i | 0 <= i < |steps| :: Next(library, trace[i], steps[i], trace[i + 1])
  }

  ghost predicate Reachable(library: Library, workerCount: nat, s: State) {
    exists trace, steps :: IsRun(library, workerCount, trace, steps) && trace[|steps|] == s
  }
}

module TransferTheorems {
  import opened Wrappers
  import opened ByteValues
  import opened Bytes
  import opened ExpertStates
  import opened TransferModel

  // ---- what the client sections do ----

  /** A request is accepted unless it names NVMe or the engine is stopping; it
      then waits, unanswered, behind all earlier ones of its priority. */
  lemma {:induction false} SubmitExactly(library: Library, s: State, r: TransferRequest, s': State)
    requires Next(library, s, SubmitStep(r), s')
    ensures if r.destination == Nvme || s.stopping then s' == s
      else s' == s.(tasks := s'.tasks, queue := s.queue + {|s.tasks|}, nextSequence := s.nextSequence + 1)
           && s'.tasks == s.tasks + [Task(r, s.nextSequence, false, 0, [])]
  {
  }

  /** A worker takes the task of highest priority; among equals the earliest. */
  lemma {:induction false} TakesHighest(library: Library, s: State, w: nat, t: TaskId, s': State, x: TaskId)
    requires Next(library, s, TakeStep(w, t), s') && x in s.queue
    ensures t in s.queue && t < |s.tasks| && x < |s.tasks|
    ensures s.tasks[t].request.priority >= s.tasks[x].request.priority
    ensures s.tasks[t].request.priority == s.tasks[x].request.priority && x != t ==>
      s.tasks[t].sequence < s.tasks[x].sequence
    ensures s' == s.(queue := s.queue - {t}, workers := s.workers[w := Holding(t, Taken)])
  {
  }

  // ---- the invariant ----

  predicate Holds(workers: seq<Worker>, w: nat, t: TaskId) {
    w < |workers| && workers[w].Holding? && workers[w].task == t
  }

  ghost predicate Held(workers: seq<Worker>, t: TaskId) {
    exists w: nat :: Holds(workers, w, t)
  }

  /** Numbers are positions, requests never name NVMe, and an answer given is the truth. */
  ghost predicate TasksOk(library: Library, tasks: seq<Task>, nextSequence: nat, nextCompletion: nat) {
    && nextSequence == |tasks|
    && forall t | 0 <= t < |tasks| ::
         && tasks[t].sequence == t
         && tasks[t].request.destination != Nvme
         && |tasks[t].answers| <= 1
         && (tasks[t].answers == [] ==> tasks[t].calls == 0)
         && (tasks[t].answers != [] ==> Truthful(library, tasks[t], nextCompletion))
  }

  /** What an answer guarantees. A completed transfer carries the bytes of its
      source to the tier asked for, with the traffic counted where it happened
      and the callback called once; a cancelled one was really cancelled and
      called nobody; a failed one called at most once. */
  predicate Truthful(library: Library, task: Task, nextCompletion: nat)
    requires task.answers != []
  {
    var r := task.request;
    match task.answers[0]
    case Completed(tier, bytes, nvmeBytes, ramToVramBytes, order) =>
      && tier == r.destination
      && Source(library, r) == Some(bytes)
      && nvmeBytes == (if r.source == Nvme then |library[r.key]| else 0)
      && ramToVramBytes == (if tier == Vram && r.source != Vram then |library[r.key]| else 0)
      && task.calls == (if r.callback then 1 else 0)
      && order < nextCompletion
    case Cancelled => task.cancelled && task.calls == 0
    case Erred => task.calls <= (if r.callback then 1 else 0)
  }

  ghost predicate QueueOk(tasks: seq<Task>, queue: set<TaskId>) {
    forall t: TaskId | t in queue :: t < |tasks| && tasks[t].answers == []
  }

  ghost predicate HandsOk(library: Library, tasks: seq<Task>, queue: set<TaskId>, workers: seq<Worker>) {
    forall w | 0 <= w < |workers| && workers[w].Holding? ::
      && workers[w].task < |tasks|
      && workers[w].task !in queue
      && tasks[workers[w].task].answers == []
      && PhaseOk(library, tasks[workers[w].task].request, workers[w].phase)
  }

  predicate PhaseOk(library: Library, r: TransferRequest, phase: Phase) {
    phase.Taken? || phase.Opened? || Source(library, r) == Some(phase.bytes)
  }

  ghost predicate OneHand(workers: seq<Worker>) {
    forall v, w | 0 <= v < w < |workers| && workers[v].Holding? && workers[w].Holding? ::
      workers[v].task != workers[w].task
  }

  /** A task that is nowhere any more has its answer. */
  ghost predicate NoneLost(tasks: seq<Task>, queue: set<TaskId>, workers: seq<Worker>) {
    forall t | 0 <= t < |tasks| && t !in queue && !Held(workers, t) :: tasks[t].answers != []
  }

  ghost predicate OrdersDiffer(tasks: seq<Task>) {
    forall t, u | 0 <= t < u < |tasks| ::
      !SameOrder(tasks[t], tasks[u])
  }

  predicate SameOrder(a: Task, b: Task) {
    a.answers != [] && b.answers != [] && a.answers[0].Completed? && b.answers[0].Completed?
    && a.answers[0].order == b.answers[0].order
  }

  /** While a task waits, so does every task behind it: nothing overtakes. */
  ghost predicate NoOvertaking(tasks: seq<Task>, queue: set<TaskId>) {
    forall t, u | t in queue && 0 <= t < |tasks| && 0 <= u < |tasks| && Overdue(tasks, t, u) :: u in queue
  }

  /** t was submitted before u and at no lower a priority. */
  predicate Overdue(tasks: seq<Task>, t: TaskId, u: TaskId)
    requires t < |tasks| && u < |tasks|
  {
    t < u && tasks[t].request.priority >= tasks[u].request.priority
  }

  ghost predicate ExitsOk(s: State) {
    forall w | 0 <= w < |s.workers| && s.workers[w].Exited? :: s.stopping && s.queue == {}
  }

  ghost predicate Inv(library: Library, s: State) {
    && TasksOk(library, s.tasks, s.nextSequence, s.nextCompletion)
    && QueueOk(s.tasks, s.queue)
    && HandsOk(library, s.tasks, s.queue, s.workers)
    && OneHand(s.workers)
    && NoneLost(s.tasks, s.queue, s.workers)
    && OrdersDiffer(s.tasks)
    && NoOvertaking(s.tasks, s.queue)
    && ExitsOk(s)
  }

  lemma {:induction false} SubmitKeeps(library: Library, s: State, r: TransferRequest)
    requires Inv(library, s) && Submit(s, r).Some?
    ensures Inv(library, Submit(s, r).value)
  {
    var s' := Submit(s, r).value;
    assert s'.workers == s.workers && s'.tasks[..|s.tasks|] == s.tasks;
    assert ExitsOk(s') && HandsOk(library, s'.tasks, s'.queue, s'.workers) && QueueOk(s'.tasks, s'.queue);
    SubmitOrder(s.tasks, s'.tasks[|s.tasks|], s.queue, s.workers);
    assert TasksOk(library, s'.tasks, s'.nextSequence, s'.nextCompletion);
  }

  /** A new task at the end of the queue loses nothing and overtakes nobody. */
  lemma {:induction false} SubmitOrder(tasks: seq<Task>, task: Task, queue: set<TaskId>, workers: seq<Worker>)
    requires NoneLost(tasks, queue, workers) && OrdersDiffer(tasks) && NoOvertaking(tasks, queue)
    requires task.answers == []
    ensures NoneLost(tasks + [task], queue + {|tasks|}, workers)
    ensures OrdersDiffer(tasks + [task]) && NoOvertaking(tasks + [task], queue + {|tasks|})
  {
    hide Held;
    assert !exists u :: 0 <= u < |tasks| && SameOrder(tasks[u], task);
  }

  lemma {:induction false} FlagsKeep(library: Library, s: State, s': State)
    requires Inv(library, s)
    requires |s'.tasks| == |s.tasks|
    requires forall t | 0 <= t < |s.tasks| ::
      s'.tasks[t] == s.tasks[t] || s'.tasks[t] == s.tasks[t].(cancelled := true)
    requires s' == s.(tasks := s'.tasks, stopping := s'.stopping)
    requires s.stopping ==> s'.stopping
    ensures Inv(library, s')
  {
  }

  lemma {:induction false} TakeKeeps(library: Library, s: State, w: nat, t: TaskId)
    requires Inv(library, s)
    requires w < |s.workers| && s.workers[w].Idle? && IsTop(s.tasks, s.queue, t)
    ensures Inv(library, s.(queue := s.queue - {t}, workers := s.workers[w := Holding(t, Taken)]))
  {
    var workers := s.workers[w := Holding(t, Taken)];
    assert Holds(workers, w, t);
    forall u | Held(s.workers, u)
      ensures Held(workers, u)
    {
      var v :| Holds(s.workers, v, u);
      assert Holds(workers, v, u);
    }
    assert forall u, x | u in s.queue - {t} && 0 <= x < |s.tasks| && Overdue(s.tasks, u, x) :: x != t by {
      assert forall u | u in s.queue && u != t :: Before(s.tasks[t], s.tasks[u]);
    }
  }

  lemma {:induction false} HandKept(s: State, w: nat, worker: Worker, u: TaskId)
    requires w < |s.workers| && s.workers[w].Holding?
    requires Held(s.workers, u)
    requires u != s.workers[w].task || (worker.Holding? && worker.task == u)
    ensures Held(s.workers[w := worker], u)
  {
    var v :| Holds(s.workers, v, u);
    assert Holds(s.workers[w := worker], v, u);
  }

  lemma {:induction false} ContinueKeeps(library: Library, s: State, w: nat, phase: Phase, s': State)
    requires Inv(library, s)
    requires w < |s.workers| && s.workers[w].Holding?
    requires PhaseOk(library, s.tasks[s.workers[w].task].request, phase)
    requires s' == s.(workers := s.workers[w := Holding(s.workers[w].task, phase)])
    ensures Inv(library, s')
  {
    forall u | Held(s.workers, u)
      ensures Held(s'.workers, u)
    {
      HandKept(s, w, s'.workers[w], u);
    }
  }

  lemma {:induction false} SettleKeeps(library: Library, s: State, w: nat, answer: Answer, called: bool,
                                       nextCompletion: nat, s': State)
    requires Inv(library, s)
    requires w < |s.workers| && s.workers[w].Holding?
    requires nextCompletion >= s.nextCompletion
    requires Truthful(library, Settle(s.tasks[s.workers[w].task], answer, called), nextCompletion)
    requires answer.Completed? ==> answer.order == s.nextCompletion
    requires s' == s.(tasks := s.tasks[s.workers[w].task := Settle(s.tasks[s.workers[w].task], answer, called)],
                      nextCompletion := nextCompletion, workers := s.workers[w := Idle])
    ensures Inv(library, s')
  {
    var t := s.workers[w].task;
    SettleTasks(library, s.tasks, t, answer, called, s.nextSequence, s.nextCompletion, nextCompletion);
    forall u | Held(s.workers, u) && u != t
      ensures Held(s'.workers, u)
    {
      HandKept(s, w, Idle, u);
    }
    SettleLosesNone(s.tasks, s'.tasks, t, s.queue, s.workers, s'.workers);
    assert QueueOk(s'.tasks, s'.queue) && HandsOk(library, s'.tasks, s'.queue, s'.workers);
    hide TasksOk, OrdersDiffer, NoneLost, Truthful, Settle;
    assert OneHand(s'.workers) && ExitsOk(s');
    assert NoOvertaking(s'.tasks, s'.queue);
  }

  /** The answer given is the truth, with a completion number of its own. */
  lemma {:induction false} SettleTasks(library: Library, tasks: seq<Task>, t: TaskId, answer: Answer, called: bool,
                                       nextSequence: nat, nextCompletion: nat, later: nat)
    requires t < |tasks| && tasks[t].answers == [] && later >= nextCompletion
    requires TasksOk(library, tasks, nextSequence, nextCompletion) && OrdersDiffer(tasks)
    requires Truthful(library, Settle(tasks[t], answer, called), later)
    requires answer.Completed? ==> answer.order == nextCompletion
    ensures var tasks' := tasks[t := Settle(tasks[t], answer, called)];
      TasksOk(library, tasks', nextSequence, later) && OrdersDiffer(tasks')
  {
    hide Source;
    var tasks' := tasks[t := Settle(tasks[t], answer, called)];
    assert forall u | 0 <= u < |tasks| && u != t :: !SameOrder(tasks'[u], tasks'[t]);
  }

  lemma {:induction false} SettleLosesNone(tasks: seq<Task>, tasks': seq<Task>, t: TaskId, queue: set<TaskId>,
                                           workers: seq<Worker>, workers': seq<Worker>)
    requires NoneLost(tasks, queue, workers) && t < |tasks| && |tasks'| == |tasks|
    requires tasks'[t].answers != [] && forall u | 0 <= u < |tasks| && u != t :: tasks'[u] == tasks[u]
    requires forall u | Held(workers, u) && u != t :: Held(workers', u)
    ensures NoneLost(tasks', queue, workers')
  {
    hide Held;
  }

  lemma {:induction false} AdvanceKeeps(library: Library, s: State, w: nat, fault: bool)
    requires Inv(library, s)
    requires w < |s.workers| && s.workers[w].Holding?
    ensures Inv(library, Advance(library, s, w, fault))
  {
    var t := s.workers[w].task;
    match Stretch(library, s.tasks[t].request, s.workers[w].phase, s.tasks[t].cancelled, fault, s.nextCompletion)
    case Continue(next) => ContinueKeeps(library, s, w, next, Advance(library, s, w, fault));
    case Answered(answer, called) =>
      var s' := Advance(library, s, w, fault);
      SettleKeeps(library, s, w, answer, called, s'.nextCompletion, s');
  }

  lemma {:induction false} StepKeeps(library: Library, s: State, step: Step, s': State)
    requires Inv(library, s) && Next(library, s, step, s')
    ensures Inv(library, s')
  {
    match step
    case SubmitStep(r) => if Submit(s, r).Some? { SubmitKeeps(library, s, r); }
    case CancelStep(t) => FlagsKeep(library, s, s');
    case StopStep => FlagsKeep(library, s, s');
    case TakeStep(w, t) => TakeKeeps(library, s, w, t);
    case AdvanceStep(w, fault) => AdvanceKeeps(library, s, w, fault);
    case ExitStep(w) =>
      forall u | Held(s.workers, u)
        ensures Held(s'.workers, u)
      {
        var v :| Holds(s.workers, v, u);
        assert Holds(s'.workers, v, u);
      }
  }

  lemma {:induction false} RunKeeps(library: Library, n: nat, trace: seq<State>, steps: seq<Step>, i: nat)
    requires IsRun(library, n, trace, steps) && i <= |steps|
    ensures Inv(library, trace[i])
  {
    if i > 0 {
      RunKeeps(library, n, trace, steps, i - 1);
      StepKeeps(library, trace[i - 1], steps[i - 1], trace[i]);
    }
  }

  lemma {:induction false} ReachableInv(library: Library, n: nat, s: State)
    requires Reachable(library, n, s)
    ensures Inv(library, s)
  {
    var trace, steps :| IsRun(library, n, trace, steps) && trace[|steps|] == s;
    RunKeeps(library, n, trace, steps, |steps|);
  }

  // ---- what a run guarantees ----

  /** On every interleaving a submitted task is in the queue, in one worker's
      hands, or answered exactly once and truthfully; and no two completed
      transfers share a completion number. */
  lemma {:induction false} EveryTaskIsAccountedFor(library: Library, n: nat, s: State, t: TaskId)
    requires Reachable(library, n, s) && t < |s.tasks|
    ensures |s.tasks[t].answers| <= 1
    ensures s.tasks[t].answers == [] <==> t in s.queue || Held(s.workers, t)
    ensures !(t in s.queue && Held(s.workers, t))
    ensures forall v: nat, w: nat | Holds(s.workers, v, t) && Holds(s.workers, w, t) :: v == w
    ensures s.tasks[t].answers != [] ==> Truthful(library, s.tasks[t], s.nextCompletion)
    ensures forall u | 0 <= u < |s.tasks| && u != t :: !SameOrder(s.tasks[t], s.tasks[u])
  {
    ReachableInv(library, n, s);
    if Held(s.workers, t) {
      var w :| Holds(s.workers, w, t);
    }
  }

  /** Whatever a worker has touched, every task submitted earlier at no lower
      a priority has been taken too. */
  lemma {:induction false} NothingOvertakes(library: Library, n: nat, s: State, t: TaskId, u: TaskId)
    requires Reachable(library, n, s) && u < |s.tasks| && t < u
    requires s.tasks[t].request.priority >= s.tasks[u].request.priority
    requires Held(s.workers, u) || s.tasks[u].answers != []
    ensures Held(s.workers, t) || s.tasks[t].answers != []
  {
    ReachableInv(library, n, s);
    if Held(s.workers, u) {
      var w :| Holds(s.workers, w, u);
    }
    assert u !in s.queue;
    if t in s.queue {
      assert Overdue(s.tasks, t, u);
      assert false;
    }
  }

  /** Once every worker has left, every task ever submitted has its one answer. */
  lemma {:induction false} NoneLeftAfterShutdown(library: Library, n: nat, s: State)
    requires Reachable(library, n, s) && n > 0
    requires forall w | 0 <= w < |s.workers| :: s.workers[w].Exited?
    requires |s.workers| == n
    ensures s.queue == {} && forall t | 0 <= t < |s.tasks| :: |s.tasks[t].answers| == 1
  {
    ReachableInv(library, n, s);
    assert s.workers[0].Exited?;
    assert forall w, t: nat :: !Holds(s.workers, w, t);
  }

  // ---- shutdown ----

  /** A task is doomed when it is cancelled and no worker is past the first
      check with it, or when it has been answered as cancelled. */
  ghost predicate Doomed(s: State, t: TaskId) {
    && t < |s.tasks|
    && s.tasks[t].cancelled
    && (s.tasks[t].answers == [] || s.tasks[t].answers == [Cancelled])
    && forall w: nat | Holds(s.workers, w, t) :: s.workers[w].phase == Taken
  }

  lemma {:induction false} DoomedStays(library: Library, s: State, step: Step, s': State, t: TaskId)
    requires Inv(library, s) && Next(library, s, step, s') && Doomed(s, t)
    ensures Doomed(s', t)
  {
    if step.AdvanceStep? {
      hide Inv, Next, Doomed;
      DoomedAdvances(library, s, step.worker, step.fault, s', t);
    } else {
      assert forall w: nat | Holds(s'.workers, w, t) && !(step.TakeStep? && w == step.worker) :: Holds(s.workers, w, t);
    }
  }

  lemma {:induction false} DoomedAdvances(library: Library, s: State, w: nat, fault: bool, s': State, t: TaskId)
    requires Inv(library, s) && Next(library, s, AdvanceStep(w, fault), s') && Doomed(s, t)
    ensures Doomed(s', t)
  {
    assert forall v: nat | Holds(s'.workers, v, t) && v != w :: Holds(s.workers, v, t);
    assert s.workers[w].task == t ==> Holds(s.workers, w, t);
    assert s.tasks[t].answers != [] ==> s.workers[w].task != t;
  }

  /** What shutdown finds in the queue is never read or moved: along every
      continuation each such task stays unanswered or is answered as cancelled,
      and its callback never runs. */
  lemma {:induction false} QueuedAtShutdownIsCancelled(library: Library, n: nat, trace: seq<State>, steps: seq<Step>,
                                                       i: nat, j: nat, t: TaskId)
    requires IsRun(library, n, trace, steps) && i < j <= |steps|
    requires steps[i] == StopStep && !trace[i].stopping && t in trace[i].queue
    ensures t < |trace[j].tasks| && trace[j].tasks[t].calls == 0
    ensures trace[j].tasks[t].answers == [] || trace[j].tasks[t].answers == [Cancelled]
    ensures Doomed(trace[j], t)
  {
    hide Inv, Next, Doomed;
    RunKeeps(library, n, trace, steps, j - 1);
    assert Next(library, trace[j - 1], steps[j - 1], trace[j]);
    if j == i + 1 {
      StopDooms(library, trace[i], trace[j], t);
    } else {
      QueuedAtShutdownIsCancelled(library, n, trace, steps, i, j - 1, t);
      DoomedStays(library, trace[j - 1], steps[j - 1], trace[j], t);
    }
    RunKeeps(library, n, trace, steps, j);
    DoomedMeans(library, trace[j], t);
  }

  lemma {:induction false} StopDooms(library: Library, s: State, s': State, t: TaskId)
    requires Inv(library, s) && Next(library, s, StopStep, s') && !s.stopping && t in s.queue
    ensures Doomed(s', t)
  {
    assert forall w: nat :: !Holds(s.workers, w, t);
  }

  lemma {:induction false} DoomedMeans(library: Library, s: State, t: TaskId)
    requires Inv(library, s) && Doomed(s, t)
    ensures t < |s.tasks| && s.tasks[t].calls == 0
    ensures s.tasks[t].answers == [] || s.tasks[t].answers == [Cancelled]
  {
  }

  function WorkerLeft(worker: Worker): nat {
    match worker
    case Idle => 1
    case Holding(_, phase) => 1 + PhaseLeft(phase)
    case Exited => 0
  }

  function Left(workers: seq<Worker>): nat {
    if workers == [] then 0 else WorkerLeft(workers[0]) + Left(workers[1..])
  }

  lemma {:induction false} LeftUpdated(workers: seq<Worker>, w: nat, worker: Worker)
    requires w < |workers|
    ensures Left(workers[w := worker]) == Left(workers) - WorkerLeft(workers[w]) + WorkerLeft(worker)
  {
    if w == 0 {
      assert workers[0 := worker][1..] == workers[1..];
    } else {
      assert workers[w := worker][1..] == workers[1..][w - 1 := worker];
      LeftUpdated(workers[1..], w - 1, worker);
    }
  }

  /** Work left: seven stretches for each waiting task, and what each worker still has to do. */
  function Work(s: State): nat {
    7 * |s.queue| + Left(s.workers)
  }

  lemma {:induction false} AdvanceUsesWork(library: Library, s: State, w: nat, fault: bool)
    requires w < |s.workers| && s.workers[w].Holding? && s.workers[w].task < |s.tasks|
    ensures Work(Advance(library, s, w, fault)) < Work(s)
    ensures Advance(library, s, w, fault).stopping == s.stopping
  {
    LeftUpdated(s.workers, w, Advance(library, s, w, fault).workers[w]);
  }

  /** Every step a worker takes uses up work, no cancel or shutdown adds any,
      and a stopping engine refuses submissions: so draining ends. */
  lemma {:induction false} DrainingEnds(library: Library, s: State, step: Step, s': State)
    requires s.stopping && Next(library, s, step, s')
    ensures s'.stopping
    ensures step.TakeStep? || step.AdvanceStep? || step.ExitStep? ==> Work(s') < Work(s)
    ensures !(step.TakeStep? || step.AdvanceStep? || step.ExitStep?) ==> Work(s') == Work(s)
  {
    match step
    case TakeStep(w, t) =>
      LeftUpdated(s.workers, w, s'.workers[w]);
      assert |s.queue - {t}| == |s.queue| - 1;
    case AdvanceStep(w, fault) => AdvanceUsesWork(library, s, w, fault);
    case ExitStep(w) => LeftUpdated(s.workers, w, s'.workers[w]);
    case _ =>
  }

  lemma {:induction false} SomeTop(tasks: seq<Task>, queue: set<TaskId>)
    requires queue != {} && forall t: TaskId | t in queue :: t < |tasks| && tasks[t].sequence == t
    ensures exists t: TaskId :: IsTop(tasks, queue, t)
    decreases |queue|
  {
    var t: TaskId :| t in queue;
    if queue - {t} == {} {
      assert queue == {t} && IsTop(tasks, queue, t);
    } else {
      SomeTop(tasks, queue - {t});
      var u: TaskId :| IsTop(tasks, queue - {t}, u);
      assert queue == queue - {t} + {t};
      assert IsTop(tasks, queue, if Before(tasks[t], tasks[u]) then t else u);
    }
  }

  /** No worker of a stopping engine is ever stuck before it has left. */
  lemma {:induction false} WorkerCanStep(library: Library, n: nat, s: State, w: nat)
    requires Reachable(library, n, s) && s.stopping && w < |s.workers| && !s.workers[w].Exited?
    ensures exists step, s' ::
      Next(library, s, step, s') && (step.TakeStep? || step.AdvanceStep? || step.ExitStep?) && step.worker == w
  {
    ReachableInv(library, n, s);
    if s.workers[w].Holding? {
      assert Next(library, s, AdvanceStep(w, false), Advance(library, s, w, false));
    } else if s.queue == {} {
      assert Next(library, s, ExitStep(w), s.(workers := s.workers[w := Exited]));
    } else {
      SomeTop(s.tasks, s.queue);
      var t :| IsTop(s.tasks, s.queue, t);
      assert Next(library, s, TakeStep(w, t),
                  s.(queue := s.queue - {t}, workers := s.workers[w := Holding(t, Taken)]));
    }
  }
}

/** When a call to shutdown returns, and which calls keep its promise. */
module TransferShutdown {
  import opened Wrappers
  import opened ExpertStates
  import opened TransferModel
  import opened TransferTheorems

  ghost predicate IsPath(library: Library, trace: seq<State>, steps: seq<Step>) {
    && |trace| == |steps| + 1
    && forall i | 0 <= i < |steps| :: Next(library, trace[i], steps[i], trace[i + 1])
  }

  /** A run leads from one state to the other. */
  ghost predicate RunsTo(library: Library, s: State, final: State) {
    exists trace, steps :: IsPath(library, trace, steps) && trace[0] == s && trace[|trace| - 1] == final
  }

  ghost predicate AllExited(s: State) {
    s.workers != [] && forall w | 0 <= w < |s.workers| :: s.workers[w].Exited?
  }

  /** Nothing waits, and every task ever submitted has its one answer. */
  ghost predicate Drained(s: State) {
    s.queue == {} && forall t | 0 <= t < |s.tasks| :: |s.tasks[t].answers| == 1
  }

  /** A call made in state s returns in state final: at once when the flag is
      set already, otherwise when every worker has left. */
  ghost predicate ShutdownReturns(library: Library, s: State, final: State) {
    if s.stopping then final == s else RunsTo(library, Stop(s), final) && AllExited(final)
  }

  /** Every call can return; and all its returns find the engine drained
      exactly when it is the call that set the flag, or the engine was drained
      anyway. */
  lemma {:induction false} ShutdownKeepsPromiseExactly(library: Library, n: nat, s: State)
    requires Reachable(library, n, s) && n > 0
    ensures exists final :: ShutdownReturns(library, s, final)
    ensures (forall final | ShutdownReturns(library, s, final) :: Drained(final)) <==> (!s.stopping || Drained(s))
  {
    hide Reachable, Next, Drained;
    if s.stopping {
      assert ShutdownReturns(library, s, s);
    } else {
      ReachableStop(library, n, s);
      var last := ShutdownFinishes(library, n, Stop(s));
      assert ShutdownReturns(library, s, last);
      forall final | ShutdownReturns(library, s, final) ensures Drained(final) {
        FirstReturnDrained(library, n, Stop(s), final);
      }
    }
  }

  lemma {:induction false} ReachableNext(library: Library, n: nat, s: State, step: Step, s': State)
    requires Reachable(library, n, s) && Next(library, s, step, s')
    ensures Reachable(library, n, s')
  {
    hide Next;
    var trace, steps :| IsRun(library, n, trace, steps) && trace[|steps|] == s;
    var trace', steps' := trace + [s'], steps + [step];
    forall i | 0 <= i < |steps'|
      ensures Next(library, trace'[i], steps'[i], trace'[i + 1])
    {
      if i < |steps| {
        assert Next(library, trace[i], steps[i], trace[i + 1]);
      }
    }
    assert IsRun(library, n, trace', steps') && trace'[|steps'|] == s';
  }

  /** The failing case happens: one task waiting, the flag set, and a second
      call that returns at once. */
  lemma {:induction false} SecondShutdownMayReturnEarly(library: Library, n: nat)
    ensures exists s :: Reachable(library, n, s) && ShutdownReturns(library, s, s) && !Drained(s)
  {
    hide Reachable;
    var s0 := Initial(n);
    ReachableStart(library, n);
    var s1 := Accept(s0, TransferRequest(0, Nvme, Ram, 0, None, None, None, true, false));
    ReachableNext(library, n, s0, SubmitStep(TransferRequest(0, Nvme, Ram, 0, None, None, None, true, false)), s1);
    assert 0 in s1.queue;
    ReachableStop(library, n, s1);
    assert ShutdownReturns(library, Stop(s1), Stop(s1)) && !Drained(Stop(s1));
  }

  lemma {:induction false} ReachableStart(library: Library, n: nat)
    ensures Reachable(library, n, Initial(n))
  {
    assert IsRun(library, n, [Initial(n)], []) && [Initial(n)][0] == Initial(n);
  }

  lemma {:induction false} ReachableStop(library: Library, n: nat, s: State)
    requires Reachable(library, n, s)
    ensures Reachable(library, n, Stop(s)) && Stop(s).stopping
  {
    hide Reachable;
    ReachableNext(library, n, s, StopStep, Stop(s));
  }

  lemma {:induction false} SameCrew(library: Library, s: State, step: Step, s': State)
    requires Next(library, s, step, s')
    ensures |s'.workers| == |s.workers|
  {
  }

  lemma {:induction false} ReachableCrew(library: Library, n: nat, trace: seq<State>, steps: seq<Step>, i: nat)
    requires IsRun(library, n, trace, steps) && i <= |steps|
    ensures |trace[i].workers| == n
  {
    hide Next;
    if i > 0 {
      ReachableCrew(library, n, trace, steps, i - 1);
      SameCrew(library, trace[i - 1], steps[i - 1], trace[i]);
    }
  }

  lemma {:induction false} CrewOf(library: Library, n: nat, s: State)
    requires Reachable(library, n, s)
    ensures |s.workers| == n
  {
    var trace, steps :| IsRun(library, n, trace, steps) && trace[|steps|] == s;
    ReachableCrew(library, n, trace, steps, |steps|);
  }

  lemma {:induction false} ReachablePath(library: Library, n: nat, trace: seq<State>, steps: seq<Step>, i: nat)
    requires IsPath(library, trace, steps) && Reachable(library, n, trace[0]) && i < |trace|
    ensures Reachable(library, n, trace[i])
  {
    hide Next, Reachable;
    if i > 0 {
      ReachablePath(library, n, trace, steps, i - 1);
      ReachableNext(library, n, trace[i - 1], steps[i - 1], trace[i]);
    }
  }

  lemma {:induction false} FirstReturnDrained(library: Library, n: nat, next: State, final: State)
    requires Reachable(library, n, next) && RunsTo(library, next, final) && AllExited(final)
    ensures Drained(final)
  {
    hide Next, Reachable;
    var trace, steps :| IsPath(library, trace, steps) && trace[0] == next && trace[|trace| - 1] == final;
    ReachablePath(library, n, trace, steps, |trace| - 1);
    CrewOf(library, n, final);
    NoneLeftAfterShutdown(library, n, final);
  }

  lemma {:induction false} RunsToItself(library: Library, s: State)
    ensures RunsTo(library, s, s)
  {
    assert IsPath(library, [s], []) && [s][0] == s;
  }

  lemma {:induction false} RunsToLonger(library: Library, s: State, step: Step, s': State, final: State)
    requires Next(library, s, step, s') && RunsTo(library, s', final)
    ensures RunsTo(library, s, final)
  {
    hide Next;
    var trace, steps :| IsPath(library, trace, steps) && trace[0] == s' && trace[|trace| - 1] == final;
    var trace', steps' := [s] + trace, [step] + steps;
    forall i | 0 <= i < |steps'|
      ensures Next(library, trace'[i], steps'[i], trace'[i + 1])
    {
      if i > 0 {
        assert Next(library, trace[i - 1], steps[i - 1], trace[i]);
      }
    }
    assert IsPath(library, trace', steps');
  }

  /** By any choice of who moves next, the workers of a stopping engine all leave. */
  lemma {:induction false} ShutdownFinishes(library: Library, n: nat, s: State) returns (final: State)
    requires Reachable(library, n, s) && s.stopping && n > 0
    ensures RunsTo(library, s, final) && AllExited(final)
    decreases Work(s)
  {
    hide Reachable, Next, Work;
    CrewOf(library, n, s);
    if w :| 0 <= w < |s.workers| && !s.workers[w].Exited? {
      WorkerCanStep(library, n, s, w);
      var step, s' :| Next(library, s, step, s') && (step.TakeStep? || step.AdvanceStep? || step.ExitStep?)
                      && step.worker == w;
      DrainingEnds(library, s, step, s');
      ReachableNext(library, n, s, step, s');
      final := ShutdownFinishes(library, n, s');
      RunsToLonger(library, s, step, s', final);
    } else {
      final := s;
      RunsToItself(library, s);
    }
  }
}

/**
The engine as it is written: a queue and promises changed in place, and a
worker loop whose body runs straight through one task.
 */
module TransferManagerClass {
  import opened Wrappers
  import opened ByteValues
  import opened Bytes
  import opened ExpertStates
  import opened TransferModel

  /** What the three reads of the cancel flag return, and what throws. */
  datatype Chances = Chances(
    flagAtStart: bool,
    flagWhenSourced: bool,
    flagWhenMoved: bool,
    loaderThrows: bool,
    backendThrows: bool,
    callbackThrows: bool)

  function FlagAt(c: Chances, phase: Phase): bool {
    match phase
    case Taken => c.flagAtStart
    case Sourced(_) => c.flagWhenSourced
    case _ => c.flagWhenMoved
  }

  function FaultAt(c: Chances, phase: Phase): bool {
    match phase
    case Opened => c.loaderThrows
    case Moving(_) => c.backendThrows
    case _ => c.callbackThrows
  }

  /** The stretches of one task from a phase on, one after another to its answer. */
  function Through(library: Library, r: TransferRequest, phase: Phase, c: Chances, order: nat): (Answer, bool, nat)
    decreases PhaseLeft(phase)
  {
    var taken := if phase.Finishing? then order + 1 else order;
    match Stretch(library, r, phase, FlagAt(c, phase), FaultAt(c, phase), order)
    case Continue(next) => Through(library, r, next, c, taken)
    case Answered(answer, called) => (answer, called, taken)
  }

  /** The last stretches together: only a backend move can fail, only a real
      move looks at the cancel flag again, and the callback decides at the end. */
  lemma {:induction false} ThroughFromMoving(library: Library, r: TransferRequest, bytes: Bytes, c: Chances, order: nat)
    ensures Through(library, r, Moving(bytes), c, order) ==
      if r.destination == Nvme || (c.backendThrows && UsesBackend(r)) then (Erred, false, order)
      else if c.flagWhenMoved && !(r.destination == Vram && r.source == Vram) then (Cancelled, false, order)
      else (if r.callback && c.callbackThrows then Erred else Delivery(r, bytes, order), r.callback, order + 1)
  {
    var finishing := Through(library, r, Finishing(bytes), c, order);
    assert r.destination != Nvme && !(c.backendThrows && UsesBackend(r)) ==>
      Through(library, r, Moving(bytes), c, order) ==
      if r.destination == Vram && r.source == Vram then finishing else Through(library, r, Moved(bytes), c, order);
  }

  /** The bytes that a transfer moves are at hand: the stored ones from NVMe, or
      a buffer that the request brings, of the stored size and, from device
      memory, of the same backend. */
  predicate AtHand(library: Library, r: TransferRequest, loaderThrows: bool, bytes: Bytes) {
    r.key in library &&
    match r.source
    case Nvme => !loaderThrows && bytes == library[r.key]
    case Ram => r.host == Some(bytes) && |bytes| == |library[r.key]|
    case PinnedRam => r.pinned == Some(bytes) && |bytes| == |library[r.key]|
    case Vram => r.sameBackend && r.device == Some(bytes) && |bytes| == |library[r.key]|
  }

  /** The backend is called to pin, to read device memory back, and to fill it
      from elsewhere; nothing else can make the move itself fail. */
  predicate MoveFails(r: TransferRequest, backendThrows: bool) {
    r.destination == Nvme
    || (backendThrows && match r.destination
                         case PinnedRam => true
                         case Ram => r.source == Vram
                         case Vram => r.source != Vram
                         case Nvme => true)
  }

  /** The one answer of a task, for everything that can happen on its way: three
      looks at the cancel flag, the loader, the backend and the callback. */
  lemma {:induction false} AnswerExactly(library: Library, r: TransferRequest, c: Chances, order: nat)
    ensures var (answer, called, _) := Through(library, r, Taken, c, order);
      var carried := !(r.destination == Vram && r.source == Vram);
      var ready := !c.flagAtStart && exists bytes :: AtHand(library, r, c.loaderThrows, bytes);
      var moved := ready && !c.flagWhenSourced && !MoveFails(r, c.backendThrows);
      && (answer.Cancelled? <==> c.flagAtStart || (ready && c.flagWhenSourced) || (moved && carried && c.flagWhenMoved))
      && (called <==> moved && !(carried && c.flagWhenMoved) && r.callback)
      && (answer.Completed? <==> moved && !(carried && c.flagWhenMoved) && !(r.callback && c.callbackThrows))
      && (answer.Completed? ==>
            && answer.tier == r.destination && AtHand(library, r, c.loaderThrows, answer.bytes) && answer.order == order
            && answer.nvmeBytes == (if r.source == Nvme then |answer.bytes| else 0)
            && answer.ramToVramBytes == (if r.destination == Vram && r.source != Vram then |answer.bytes| else 0))
  {
    HandedOver(library, r, c.loaderThrows);
    FromSource(library, r, c, order);
    if Source(library, r).Some? {
      ThroughFromMoving(library, r, Source(library, r).value, c, order);
    }
    hide Through, AtHand, Source;
  }

  lemma {:induction false} HandedOver(library: Library, r: TransferRequest, loaderThrows: bool)
    ensures forall bytes ::
      AtHand(library, r, loaderThrows, bytes) <==> !(loaderThrows && r.source == Nvme) && Source(library, r) == Some(bytes)
  {
  }

  lemma {:induction false} FromSource(library: Library, r: TransferRequest, c: Chances, order: nat)
    ensures Through(library, r, Taken, c, order) ==
      if c.flagAtStart then (Cancelled, false, order)
      else if (c.loaderThrows && r.source == Nvme) || Source(library, r) == None then (Erred, false, order)
      else if c.flagWhenSourced then (Cancelled, false, order)
      else Through(library, r, Moving(Source(library, r).value), c, order)
  {
    hide Source;
    if Source(library, r).Some? {
      var sourced := Through(library, r, Sourced(Source(library, r).value), c, order);
      assert !c.flagAtStart && !(c.loaderThrows && r.source == Nvme) ==> Through(library, r, Opened, c, order) == sourced;
    }
  }

  /** Tasks are numbered in the order of submission. */
  predicate InOrder(tasks: seq<Task>, heap: set<TaskId>) {
    forall x: TaskId | x in heap :: x < |tasks| && tasks[x].sequence == x
  }

  class TransferManager {
    const library: Library
    var tasks: seq<Task>
    var queue: set<TaskId>
    var nextSequence: nat
    var nextCompletion: nat
    var stopping: bool

    ghost function View(workers: seq<Worker>): State
      reads this
    {
      State(tasks, queue, nextSequence, nextCompletion, stopping, workers)
    }

    constructor (library: Library)
      ensures this.library == library
      ensures forall n: nat :: View(seq(n, _ => Idle)) == Initial(n)
    {
      this.library := library;
      tasks, queue, nextSequence, nextCompletion, stopping := [], {}, 0, 0, false;
    }

    /** None where the source throws. */
    method Submit(r: TransferRequest) returns (handle: Option<TaskId>)
      modifies this
      ensures View([]) == Accept(old(View([])), r)
      ensures handle == if TransferModel.Submit(old(View([])), r).Some? then Some(|old(tasks)|) else None
    {
      if r.destination == Nvme || stopping {
        return None;
      }
      handle := Some(|tasks|);
      tasks := tasks + [Task(r, nextSequence, false, 0, [])];
      queue := queue + {|tasks| - 1};
      nextSequence := nextSequence + 1;
    }

    /** The top of a heap of tasks. */
    method Top(heap: set<TaskId>) returns (t: TaskId)
      requires heap != {} && InOrder(tasks, heap)
      ensures IsTop(tasks, heap, t)
    {
      t :| t in heap;
      var others := heap - {t};
      while others != {}
        invariant t in heap && others <= heap - {t}
        invariant forall x: TaskId | x in heap && x !in others && x != t :: Before(tasks[t], tasks[x])
        decreases |others|
      {
        var x: TaskId :| x in others;
        if Before(tasks[x], tasks[t]) {
          t := x;
        }
        others := others - {x};
      }
    }

    /** The best waiting task leaves the queue. */
    method TakeTop() returns (t: TaskId)
      requires queue != {} && InOrder(tasks, queue)
      modifies `queue
      ensures IsTop(tasks, old(queue), t) && queue == old(queue) - {t}
    {
      t := Top(queue);
      queue := queue - {t};
    }

    /** The bytes to move: read by the loader, or taken from a buffer that the
        request brings and that has the size of the stored expert. */
    method Acquire(r: TransferRequest, loaderThrows: bool) returns (bytes: Option<Bytes>)
      ensures bytes == if loaderThrows && r.source == Nvme then None else Source(library, r)
    {
      if r.source == Nvme {
        return if loaderThrows || r.key !in library then None else Some(library[r.key]);
      }
      if r.key !in library {
        return None;
      }
      var brought := match r.source
        case PinnedRam => r.pinned
        case Vram => r.device
        case _ => r.host;
      if brought == None || |brought.value| != |library[r.key]| || (r.source == Vram && !r.sameBackend) {
        return None;
      }
      return brought;
    }

    /** The body of the worker loop for one task: on every path through the
        checks, the moves and the callback the promise is set once, with the
        answer that the worker's stretches lead to. */
    method Process(t: TaskId, c: Chances)
      requires t < |tasks|
      modifies `tasks, `nextCompletion
      ensures var (answer, called, next) := Through(library, old(tasks)[t].request, Taken, c, old(nextCompletion));
        tasks == old(tasks)[t := Settle(old(tasks)[t], answer, called)] && nextCompletion == next
    {
      var r := tasks[t].request;
      if c.flagAtStart {
        SetAnswer(t, Cancelled);
        return;
      }
      var bytes := Acquire(r, c.loaderThrows);
      ghost var all := Through(library, r, Taken, c, nextCompletion);
      assert all == Through(library, r, Opened, c, nextCompletion);
      if bytes == None {
        SetAnswer(t, Erred);
        return;
      }
      assert all == Through(library, r, Sourced(bytes.value), c, nextCompletion);
      if c.flagWhenSourced {
        SetAnswer(t, Cancelled);
        return;
      }
      assert all == Through(library, r, Moving(bytes.value), c, nextCompletion);
      MoveAndFinish(t, bytes.value, c);
    }

    method MoveAndFinish(t: TaskId, bytes: Bytes, c: Chances)
      requires t < |tasks|
      modifies `tasks, `nextCompletion
      ensures var (answer, called, next) :=
          Through(library, old(tasks)[t].request, Moving(bytes), c, old(nextCompletion));
        tasks == old(tasks)[t := Settle(old(tasks)[t], answer, called)] && nextCompletion == next
    {
      var r := tasks[t].request;
      ThroughFromMoving(library, r, bytes, c, nextCompletion);
      var nvmeBytes := if r.source == Nvme then |bytes| else 0;
      var ramToVramBytes := 0;
      if r.destination == Ram {
        if r.source == Vram && c.backendThrows {
          SetAnswer(t, Erred);
          return;
        }
      } else if r.destination == PinnedRam {
        if c.backendThrows {
          SetAnswer(t, Erred);
          return;
        }
      } else if r.destination == Vram {
        if r.source == Vram {
          Finish(t, Completed(r.destination, bytes, nvmeBytes, 0, nextCompletion), c.callbackThrows);
          return;
        }
        if c.backendThrows {
          SetAnswer(t, Erred);
          return;
        }
        ramToVramBytes := |bytes|;
      } else {
        SetAnswer(t, Erred);
        return;
      }
      if c.flagWhenMoved {
        SetAnswer(t, Cancelled);
        return;
      }
      Finish(t, Completed(r.destination, bytes, nvmeBytes, ramToVramBytes, nextCompletion), c.callbackThrows);
    }

    method SetAnswer(t: TaskId, answer: Answer)
      requires t < |tasks|
      modifies `tasks
      ensures tasks == old(tasks)[t := Settle(old(tasks)[t], answer, false)]
    {
      tasks := tasks[t := tasks[t].(answers := tasks[t].answers + [answer])];
    }

    /** A completion number, the callback, then the promise; a throwing
        callback turns the answer into an error. */
    method Finish(t: TaskId, answer: Answer, callbackThrows: bool)
      requires t < |tasks|
      modifies `tasks, `nextCompletion
      ensures nextCompletion == old(nextCompletion) + 1
      ensures var task := old(tasks)[t];
        tasks == old(tasks)[t := Settle(
          task, if task.request.callback && callbackThrows then Erred else answer, task.request.callback)]
    {
      nextCompletion := nextCompletion + 1;
      if tasks[t].request.callback {
        tasks := tasks[t := tasks[t].(calls := tasks[t].calls + 1)];
        if callbackThrows {
          SetAnswer(t, Erred);
          return;
        }
      }
      SetAnswer(t, answer);
    }

    /** The locked part of shutdown: the tasks of a copy of the heap are told to
        cancel, from the top down; the heap itself stays. */
    method BeginShutdown()
      requires InOrder(tasks, queue)
      modifies `stopping, `tasks
      ensures View([]) == Stop(old(View([])))
    {
      if stopping {
        return;
      }
      stopping := true;
      var pendingTasks := queue;
      ghost var first, told: set<TaskId> := tasks, {};
      CancelNone(first);
      hide CancelAll, IsTop, Before, InOrder;
      while pendingTasks != {}
        invariant stopping && told + pendingTasks == queue
        invariant tasks == CancelAll(first, told)
        decreases |pendingTasks|
      {
        StillInOrder(first, queue, told, pendingTasks);
        var t := Top(pendingTasks);
        TopIsIn(tasks, pendingTasks, t);
        CancelMore(first, told, t);
        tasks := tasks[t := tasks[t].(cancelled := true)];
        pendingTasks, told := pendingTasks - {t}, told + {t};
      }
    }
  }

  lemma {:induction false} CancelNone(tasks: seq<Task>)
    ensures CancelAll(tasks, {}) == tasks
  {
  }

  lemma {:induction false} CancelMore(tasks: seq<Task>, told: set<TaskId>, t: TaskId)
    requires t < |CancelAll(tasks, told)|
    ensures CancelAll(tasks, told)[t := CancelAll(tasks, told)[t].(cancelled := true)] == CancelAll(tasks, told + {t})
  {
  }

  lemma {:induction false} StillInOrder(tasks: seq<Task>, queue: set<TaskId>, told: set<TaskId>, heap: set<TaskId>)
    requires InOrder(tasks, queue) && heap <= queue
    ensures InOrder(CancelAll(tasks, told), heap)
  {
  }

  lemma {:induction false} TopIsIn(tasks: seq<Task>, heap: set<TaskId>, t: TaskId)
    requires IsTop(tasks, heap, t)
    ensures t in heap
  {
  }
}
