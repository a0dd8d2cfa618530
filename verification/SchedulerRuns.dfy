/** What a client may rely on while it uses an expert, along whole runs. */
module SchedulerUse {
  import opened Wrappers
  import opened ExpertStates
  import opened SchedulerModel
  import opened SchedulerInvariant
  import opened SchedulerTheorems
  import opened SchedulerPrefetch
  import opened SchedulerBound

  /** In use and without a pending task: what a client can look up. */
  ghost predicate Unclaimed(s: State, k: Key) {
    k in s.experts && s.experts[k].state == InUse && k !in s.pending
  }

  /** No step gives an expert in use a task. */
  lemma {:induction false} StaysUnclaimed(c: Config, s: State, step: Step, s': State, k: Key)
    requires Inv(s) && Next(c, s, step, s') && Unclaimed(s, k)
    ensures k !in s'.pending
  {
    if step.ScheduleStep? {
      ScheduleClaims(c, s, step.request, step.callback, k);
    } else if step.PopStep? {
      PopKeepsPending(s, step.worker, s');
    } else if step.ExpireStep? {
      ExpireKeepsTasks(s, step.layer, step.order);
    } else if IsWorkerStep(step) {
      WorkersOnlyErase(c, s, step, s');
    }
  }

  lemma {:induction false} ScheduleClaims(c: Config, s: State, r: ScheduleRequest, callback: Option<Callback>, k: Key)
    requires PendingOk(s) && Unclaimed(s, k)
    ensures k !in Schedule(c, s, r, callback).0.pending
  {
    hide MakeKey, Join, AlreadyThere;
    if !s.stopping && r.Key() in s.experts {
      ConsumeTaskMoves(c, s, r);
      if r.Key() in s.pending {
        JoinKeepsPending(Consume(c, s, r), s.pending[r.Key()], r, callback);
      }
    }
  }

  lemma {:induction false} JoinKeepsPending(s: State, t: TaskId, r: ScheduleRequest, callback: Option<Callback>)
    requires t < |s.tasks|
    ensures Join(s, t, r, callback).pending == s.pending
  {
  }

  lemma {:induction false} PopKeepsPending(s: State, w: nat, s': State)
    requires w < |s.workers| && PopResult(s, w, s')
    ensures s'.pending == s.pending
  {
  }

  lemma {:induction false} WorkersOnlyErase(c: Config, s: State, step: Step, s': State)
    requires IsWorkerStep(step) && WorkerNext(c, s, step, s') && !step.PopStep?
    ensures s'.pending.Keys <= s.pending.Keys
  {
    hide FireAt, TrimFrom, Store, MakeKey, PopResult;
  }

  /** Along every run an expert in use without a pending task keeps its state,
      tier and count, and gets no task, until its release. */
  lemma {:induction false} InUseUntilRelease(c: Config, workerCount: nat, trace: seq<State>, steps: seq<Step>,
                                             i: nat, j: nat, k: Key)
    requires IsRun(c, workerCount, trace, steps) && i <= j < |trace|
    requires Unclaimed(trace[i], k)
    requires forall m | i <= m < j :: steps[m] != ReleaseStep(k)
    ensures Unclaimed(trace[j], k) && trace[j].experts[k] == trace[i].experts[k]
  {
    hide Next, Inv;
    if i < j {
      InUseUntilRelease(c, workerCount, trace, steps, i, j - 1, k);
      RunKeeps(c, workerCount, trace, steps, j - 1);
      StaysUnclaimed(c, trace[j - 1], steps[j - 1], trace[j], k);
      InUseIsKept(c, trace[j - 1], steps[j - 1], trace[j], k);
    }
  }

  // ---- with a pending task ----

  /** In use, and no worker is failing a task of this expert. */
  ghost predicate Secure(s: State, k: Key) {
    && k in s.experts && s.experts[k].state == InUse
    && forall w | 0 <= w < |s.workers| && s.workers[w].Failing? && s.workers[w].task < |s.tasks| ::
         s.tasks[s.workers[w].task].request.Key() != k
  }

  /** The commit of the expert's own task, when its trim will abort. */
  ghost predicate AbortsOwnCommit(c: Config, s: State, step: Step, k: Key) {
    && step.CommitStep? && step.worker < |s.workers| && s.workers[step.worker].Readied?
    && s.workers[step.worker].task < |s.tasks| && s.tasks[s.workers[step.worker].task].request.Key() == k
    && TrimAborts(c, s, s.workers[step.worker].task, s.workers[step.worker].transfer)
  }

  /** An expert in use that is secure stays in use and secure through a step,
      unless released, exactly when the step is not the commit of its own task
      with a trim that will abort: judged on the state before the step. */
  lemma {:induction false} SecureExactly(c: Config, s: State, step: Step, s': State, k: Key)
    requires Inv(s) && Next(c, s, step, s') && Secure(s, k) && step != ReleaseStep(k)
    ensures k in s'.experts && s'.experts[k] == s.experts[k]
    ensures Secure(s', k) <==> !AbortsOwnCommit(c, s, step, k)
  {
    hide Inv, TrimAborts;
    InUseIsKept(c, s, step, s', k);
    assert !FailsTaskOf(s, step, k);
    if step.ScheduleStep? {
      ScheduleSecure(c, s, step.request, step.callback);
    } else if step.PopStep? {
      PopSecure(s, step.worker, s');
    } else if IsWorkerStep(step) {
      WorkerSecure(c, s, step, s', k);
    } else {
      ClientTaskMoves(c, s, step, s');
      hide ClientNext, Next;
      SameRequests(s, step, s');
    }
  }

  lemma {:induction false} SameRequests(s: State, step: Step, s': State)
    requires |s'.tasks| == |s.tasks|
    requires forall t | 0 <= t < |s.tasks| :: TaskMoves(s, step, t, s.tasks[t], s'.tasks[t])
    ensures forall t | 0 <= t < |s.tasks| :: s'.tasks[t].request == s.tasks[t].request
  {
    forall t | 0 <= t < |s.tasks| ensures s'.tasks[t].request == s.tasks[t].request {
      assert TaskMoves(s, step, t, s.tasks[t], s'.tasks[t]);
    }
  }

  lemma {:induction false} ScheduleSecure(c: Config, s: State, r: ScheduleRequest, callback: Option<Callback>)
    requires Inv(s)
    ensures var s' := Schedule(c, s, r, callback).0;
      && |s.tasks| <= |s'.tasks| && s'.workers == s.workers
      && (forall t | 0 <= t < |s.tasks| :: s'.tasks[t].request.Key() == s.tasks[t].request.Key())
      && (forall w | 0 <= w < |s.workers| && s.workers[w].Failing? :: s.workers[w].task < |s.tasks|)
  {
    NoneCompleted(s);
    hide Inv, Schedule;
    ScheduleTaskMoves(c, s, r, callback);
    var s' := Schedule(c, s, r, callback).0;
    forall t | 0 <= t < |s.tasks| ensures s'.tasks[t].request.Key() == s.tasks[t].request.Key() {
      assert TaskJoined(s.tasks[t], s'.tasks[t]);
    }
  }

  lemma {:induction false} NoneCompleted(s: State)
    requires Inv(s)
    ensures PendingOk(s) && forall k | k in s.pending :: !s.tasks[s.pending[k]].completed
    ensures forall w | 0 <= w < |s.workers| && s.workers[w].Failing? :: s.workers[w].task < |s.tasks|
  {
  }

  lemma {:induction false} PopSecure(s: State, w: nat, s': State)
    requires w < |s.workers| && s.workers[w].Idle? && PopResult(s, w, s')
    ensures |s'.tasks| == |s.tasks| && |s'.workers| == |s.workers|
    ensures forall t | 0 <= t < |s.tasks| :: s'.tasks[t].request == s.tasks[t].request
    ensures forall v | 0 <= v < |s.workers| ::
      s'.workers[v] == s.workers[v] || (!s'.workers[v].Failing? && !s.workers[v].Failing?)
  {
    PopTaskMoves(s, w, s');
    var live := set e | e in s.queue && Live(s, e);
    if live != {} {
      assert s'.workers[w].Popped?;
    }
  }

  lemma {:induction false} WorkerSecure(c: Config, s: State, step: Step, s': State, k: Key)
    requires Inv(s) && IsWorkerStep(step) && WorkerNext(c, s, step, s') && !step.PopStep? && Secure(s, k)
    ensures Secure(s', k) <==> k in s'.experts && s'.experts[k].state == InUse && !AbortsOwnCommit(c, s, step, k)
  {
    var w := step.worker;
    WorkerIsBusy(c, s, step, s');
    OwnShows(c, s, step, s', k);
    hide Inv, TrimAborts, WorkerNext, OwnMove, AbortsOwnCommit, TaskMoves, Secure, Shows;
    WorkerOwnMove(c, s, step, s');
    WorkerTaskMoves(s, step, s');
    OwnMoveFrame(s, step, s');
    SameRequests(s, step, s');
    SecureAfterOwnMove(s, w, s', k);
    SecureInUse(s, k);
    if s.tasks[s.workers[w].task].request.Key() == k {
      FailingOnlyByCommit(c, s, step, s', k);
    } else {
      OnlyOwnCommit(c, s, step, k);
    }
  }

  lemma {:induction false} OwnShows(c: Config, s: State, step: Step, s': State, k: Key)
    requires Inv(s) && IsWorkerStep(step) && WorkerNext(c, s, step, s') && !step.PopStep? && Secure(s, k)
    ensures Holds(s.workers[step.worker]) ==>
      var r := s.tasks[s.workers[step.worker].task].request;
      r.Key() in s.experts && Shows(s.experts[r.Key()].state, r.eviction, s.workers[step.worker])
    ensures s.tasks[s.workers[step.worker].task].request.Key() == k ==> !s.workers[step.worker].Failing?
  {
    var w := step.worker;
    if Holds(s.workers[w]) {
      OwnedShows(s, w);
    }
    hide Inv;
  }

  lemma {:induction false} SecureAfterOwnMove(s: State, w: nat, s': State, k: Key)
    requires w < |s.workers| == |s'.workers| && |s'.tasks| == |s.tasks| && Secure(s, k)
    requires Busy(s.workers[w]) && s.workers[w].task < |s.tasks|
    requires forall v | 0 <= v < |s.workers| && v != w :: s'.workers[v] == s.workers[v]
    requires s'.workers[w].Failing? ==> s'.workers[w].task == s.workers[w].task
    requires forall t | 0 <= t < |s.tasks| :: s'.tasks[t].request == s.tasks[t].request
    ensures Secure(s', k) <==>
      && k in s'.experts && s'.experts[k].state == InUse
      && !(s'.workers[w].Failing? && s.tasks[s.workers[w].task].request.Key() == k)
  {
    hide MakeKey;
  }

  lemma {:induction false} WorkerIsBusy(c: Config, s: State, step: Step, s': State)
    requires IsWorkerStep(step) && WorkerNext(c, s, step, s') && !step.PopStep?
    ensures step.worker < |s.workers| && Busy(s.workers[step.worker]) && s.workers[step.worker].task < |s.tasks|
  {
  }

  lemma {:induction false} OnlyOwnCommit(c: Config, s: State, step: Step, k: Key)
    requires IsWorkerStep(step) && step.worker < |s.workers| && Busy(s.workers[step.worker])
    requires s.workers[step.worker].task < |s.tasks| && s.tasks[s.workers[step.worker].task].request.Key() != k
    ensures !AbortsOwnCommit(c, s, step, k)
  {
  }

  /** One worker moves, and stays with its task if it begins to fail. */
  lemma {:induction false} OwnMoveFrame(s: State, step: Step, s': State)
    requires IsWorkerStep(step) && step.worker < |s.workers|
    requires Busy(s.workers[step.worker]) && s.workers[step.worker].task < |s.tasks| && OwnMove(s, step, s')
    ensures |s'.workers| == |s.workers| && |s'.tasks| == |s.tasks|
    ensures forall v | 0 <= v < |s.workers| && v != step.worker :: s'.workers[v] == s.workers[v]
    ensures s'.workers[step.worker].Failing? ==> s'.workers[step.worker].task == s.workers[step.worker].task
  {
  }

  /** The worker of an expert in use begins to fail only by aborting its commit. */
  lemma {:induction false} FailingOnlyByCommit(c: Config, s: State, step: Step, s': State, k: Key)
    requires IsWorkerStep(step) && WorkerNext(c, s, step, s') && !step.PopStep?
    requires k in s.experts && s.experts[k].state == InUse
    requires Holds(s.workers[step.worker]) ==>
      var r := s.tasks[s.workers[step.worker].task].request;
      r.Key() in s.experts && Shows(s.experts[r.Key()].state, r.eviction, s.workers[step.worker])
    requires s.tasks[s.workers[step.worker].task].request.Key() == k
    ensures |s'.workers| == |s.workers|
    ensures !s.workers[step.worker].Failing? ==>
      (s'.workers[step.worker].Failing? <==> AbortsOwnCommit(c, s, step, k))
  {
    hide TrimAborts, CommitWith;
    if step.CommitStep? {
      CommitAccounting(c, s, step.worker, s.workers[step.worker].task, step.candidates);
      CommitKeepsCrew(c, s, step.worker, step.candidates);
    }
  }

  lemma {:induction false} CommitKeepsCrew(c: Config, s: State, w: nat, candidates: seq<Key>)
    requires w < |s.workers| && s.workers[w].Readied? && s.workers[w].task < |s.tasks|
    ensures |CommitWith(c, s, w, s.workers[w].task, s.workers[w].transfer, candidates).workers| == |s.workers|
  {
  }

  /** Along every run an expert in use keeps its state, tier and count until its
      release or an aborting commit of its own task. */
  lemma {:induction false} InUseUntilAbort(c: Config, workerCount: nat, trace: seq<State>, steps: seq<Step>,
                                           i: nat, j: nat, k: Key)
    requires IsRun(c, workerCount, trace, steps) && i <= j < |trace| && Secure(trace[i], k)
    requires forall m | i <= m < j :: steps[m] != ReleaseStep(k) && !AbortsOwnCommit(c, trace[m], steps[m], k)
    ensures Secure(trace[j], k) && trace[j].experts[k] == trace[i].experts[k]
  {
    hide Next, Inv, Secure, AbortsOwnCommit;
    if i < j {
      InUseUntilAbort(c, workerCount, trace, steps, i, j - 1, k);
      RunKeeps(c, workerCount, trace, steps, j - 1);
      SecureInUse(trace[j - 1], k);
      SecureExactly(c, trace[j - 1], steps[j - 1], trace[j], k);
    }
  }

  lemma {:induction false} SecureInUse(s: State, k: Key)
    requires Secure(s, k)
    ensures k in s.experts && s.experts[k].state == InUse
  {
  }
}

/** When a call to shutdown returns, and which calls keep its promise. */
module SchedulerShutdown {
  import opened Wrappers
  import opened ExpertStates
  import opened SchedulerModel
  import opened SchedulerInvariant
  import opened SchedulerTheorems

  /** A call made in state s returns in state final: at once when the flag is
      set already, otherwise when every worker it has told to stop has exited. */
  ghost predicate ShutdownReturns(c: Config, s: State, final: State) {
    if s.stopping then final == s else RunsTo(c, BeginShutdown(s), final) && AllExited(final)
  }

  /** Every call can return; and all its returns leave no task pending exactly
      when it is the call that set the flag, or nothing was pending anyway. */
  lemma {:induction false} ShutdownKeepsPromiseExactly(c: Config, workerCount: nat, s: State)
    requires Reachable(c, workerCount, s) && |s.workers| > 0
    ensures exists final :: ShutdownReturns(c, s, final)
    ensures (forall final | ShutdownReturns(c, s, final) :: final.pending == map[])
       <==> (!s.stopping || s.pending == map[])
  {
    hide Reachable, Next;
    if s.stopping {
      assert ShutdownReturns(c, s, s);
    } else {
      var next := BeginShutdown(s);
      ShutdownReached(c, workerCount, s);
      var last := ShutdownFinishes(c, workerCount, next);
      assert ShutdownReturns(c, s, last);
      forall final | ShutdownReturns(c, s, final) ensures final.pending == map[] {
        FirstReturnLeavesNothing(c, workerCount, next, final);
      }
    }
  }

  lemma {:induction false} ShutdownReached(c: Config, workerCount: nat, s: State)
    requires Reachable(c, workerCount, s)
    ensures Reachable(c, workerCount, BeginShutdown(s))
  {
    hide Reachable, BeginShutdown, WorkerNext;
    ReachableNext(c, workerCount, s, ShutdownStep, BeginShutdown(s));
  }

  /** The call that set the flag returns with every task answered as well. */
  lemma {:induction false} FirstReturnLeavesNothing(c: Config, workerCount: nat, next: State, final: State)
    requires Reachable(c, workerCount, next) && RunsTo(c, next, final) && AllExited(final)
    ensures final.pending == map[] && final.queue == {}
    ensures forall t | 0 <= t < |final.tasks| ::
      final.tasks[t].completed && |final.tasks[t].answers| == 1 && final.tasks[t].ran == final.tasks[t].callbacks
  {
    hide Reachable, Next;
    var trace, steps :| IsPath(c, trace, steps) && trace[0] == next && trace[|trace| - 1] == final;
    ReachableRunsTo(c, workerCount, next, trace, steps, |trace| - 1);
    ShutdownLeavesNothing(c, workerCount, final);
  }
}

/** Expiry of prefetched experts before a layer: when it runs to its end, and
    what it leaves in either case. */
module SchedulerExpiry {
  import opened Wrappers
  import opened ExpertStates
  import opened SchedulerModel
  import opened SchedulerTheorems
  import opened SchedulerPrefetch

  /** The prefetched experts of earlier layers. */
  ghost function Expired(keys: set<Key>, layer: Id32): set<Key> {
    set k | k in keys && KeyLayer(k) < layer
  }

  /** An expert whose payload is gone while it still counts as prefetched. */
  predicate Stranded(s: State, k: Key) {
    k in s.prefetched && k !in s.resident
  }

  /** In whatever order the set is walked: expiry runs to its end exactly when
      every expired expert can be sent back. Then those and only those are out,
      payload and all. Otherwise one that cannot be sent back is stranded, and
      only expired experts have lost anything. */
  lemma {:induction false} ExpiryExactly(s: State, layer: Id32, order: seq<Key>)
    requires Enumerates(order, s.prefetched)
    ensures var (s', ok) := ExpireFrom(s, layer, order);
      var expired := Expired(s.prefetched, layer);
      && (ok <==> Reconcilable(s.experts, expired))
      && (ok ==> s'.prefetched == s.prefetched - expired && s'.resident == s.resident - expired)
      && (!ok ==> exists k :: k in expired && !Reconcilable(s.experts, {k}) && Stranded(s', k))
      && s.prefetched - expired <= s'.prefetched <= s.prefetched
      && (forall k | k in s.resident && k !in expired :: k in s'.resident && s'.resident[k] == s.resident[k])
  {
    hide ExpireFrom, Reconcilable, KeyLayer;
    WalkExactly(s, layer, order);
    assert ExpiredOf(order, layer) == Expired(s.prefetched, layer);
  }

  ghost function ExpiredOf(order: seq<Key>, layer: Id32): set<Key> {
    set k | k in order && KeyLayer(k) < layer
  }

  /** The walk over the rest of an order without repetition. */
  lemma {:induction false} WalkExactly(s: State, layer: Id32, order: seq<Key>)
    requires forall i, j | 0 <= i < j < |order| :: order[i] != order[j]
    requires forall k | k in order :: k in s.prefetched
    ensures var (s', ok) := ExpireFrom(s, layer, order);
      var expired := ExpiredOf(order, layer);
      && (ok <==> Reconcilable(s.experts, expired))
      && (ok ==> s'.prefetched == s.prefetched - expired && s'.resident == s.resident - expired)
      && (!ok ==> exists k :: k in expired && !Reconcilable(s.experts, {k}) && Stranded(s', k))
      && s.prefetched - expired <= s'.prefetched <= s.prefetched
      && (forall k | k in s.resident && k !in expired :: k in s'.resident && s'.resident[k] == s.resident[k])
    decreases |order|
  {
    hide Reconcilable, FireAt, KeyLayer;
    if order == [] {
      NoneToSend(s.experts);
      assert ExpiredOf(order, layer) == {};
    } else {
      var k, rest := order[0], order[1..];
      var later := ExpiredOf(rest, layer);
      assert order == [k] + rest;
      if KeyLayer(k) >= layer {
        WalkExactly(s, layer, rest);
        assert ExpiredOf(order, layer) == later;
      } else {
        assert ExpiredOf(order, layer) == later + {k} && k !in later;
        SendOne(s.experts, k, later);
        var dropped := s.(resident := s.resident - {k});
        if FireAt(s.experts, k, Reconcile(Nvme)).Some? {
          var table := FireAt(s.experts, k, Reconcile(Nvme)).value;
          var next := dropped.(experts := table, prefetched := s.prefetched - {k});
          WalkExactly(next, layer, rest);
          assert s.resident - {k} - later == s.resident - (later + {k});
          forall j | j in later ensures Reconcilable(table, {j}) <==> Reconcilable(s.experts, {j}) {
            SendOne(s.experts, k, {j});
          }
        } else {
          assert Stranded(dropped, k);
        }
      }
    }
  }

  lemma {:induction false} NoneToSend(experts: Table)
    ensures Reconcilable(experts, {})
  {
  }

  /** Sending one expert back decides its own case and no other. */
  lemma {:induction false} SendOne(experts: Table, k: Key, others: set<Key>)
    requires k !in others
    ensures FireAt(experts, k, Reconcile(Nvme)).Some? <==> Reconcilable(experts, {k})
    ensures Reconcilable(experts, others + {k}) <==> Reconcilable(experts, others) && Reconcilable(experts, {k})
    ensures FireAt(experts, k, Reconcile(Nvme)).Some? ==>
      (Reconcilable(FireAt(experts, k, Reconcile(Nvme)).value, others) <==> Reconcilable(experts, others))
  {
    ReconcileOthers(experts, k, others);
  }

  ghost predicate ExpiryStopsAt(c: Config, s: State, s': State, k: Key) {
    && Reachable(c, 1, s) && Next(c, s, ExpireStep(1, [k]), s') && !ExpireFrom(s, 1, [k]).1
    && k in s.resident && Stranded(s', k) && k in s'.experts && s'.experts[k].state == InUse
  }

  /** The refusal happens: a prefetched expert in use, then expiry before the
      next layer. Its payload is gone and it still counts as prefetched. */
  lemma {:induction false} ExpiryCanStop(c: Config)
    requires c == Config(false, 10)
    ensures exists s, s', k :: ExpiryStopsAt(c, s, s', k)
  {
    hide Reachable, WorkerNext;
    var s := PrefetchAndUse(c, 2);
    var order: seq<Key> := [2];
    ExpiryExactly(s, 1, order);
    var s' := ExpireFrom(s, 1, order).0;
    ExpireSparesInUse(s, 1, order, 2);
    assert 2 in Expired(s.prefetched, 1);
    assert Next(c, s, ExpireStep(1, order), s');
    assert ExpiryStopsAt(c, s, s', 2);
  }
}
