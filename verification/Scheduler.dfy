/**
The scheduler as it is written: fields assigned in place under one lock. Each
method is one locked section; its contract is the step of the transition
system it performs. Task objects are named by their position in the order of
creation. The worker's own place in its loop is no field of the scheduler, so
the views below add it.
 */
module SchedulerClass {
  import opened Wrappers
  import opened ExpertStates
  import opened SchedulerModel
  import opened SchedulerInvariant
  import Theorems = SchedulerTheorems
  import Prefetching = SchedulerPrefetch
  import Expiry = SchedulerExpiry

  /** The keys of a set in ascending order, as the trim loop sorts them. */
  method SortedKeys(keys: set<Key>) returns (sorted: seq<Key>)
    ensures Ascending(sorted) && forall k :: k in sorted <==> k in keys
  {
    sorted := [];
    var rest := keys;
    while rest != {}
      invariant rest <= keys && Ascending(sorted)
      invariant forall k :: k in keys <==> k in sorted || k in rest
      invariant forall i, k | 0 <= i < |sorted| && k in rest :: sorted[i] < k
      decreases |rest|
    {
      var least :| least in rest;
      var others := rest - {least};
      while others != {}
        invariant least in rest && others <= rest
        invariant forall k | k in rest && k !in others :: least <= k
        decreases |others|
      {
        var k :| k in others;
        if k < least { least := k; }
        others := others - {k};
      }
      sorted := sorted + [least];
      rest := rest - {least};
    }
  }

  datatype ScheduleResult = ScheduleResult(success: bool, state: ExpertState, transfer: Option<Transfer>)

  function HeldFor(resident: map<Key, Transfer>, k: Key): Option<Transfer> {
    if k in resident then Some(resident[k]) else None
  }

  lemma {:induction false} ReadyIsThere(c: Config, s: State, r: ScheduleRequest, callback: Option<Callback>)
    requires PendingOk(s)
    ensures var (s', outcome) := SchedulerModel.Schedule(c, s, r, callback);
      outcome.ReadyNow? ==> r.Key() in s'.experts && AlreadyThere(s'.experts[r.Key()], r)
  {
    hide MakeKey, FireAt;
  }

  class Scheduler {
    const config: Config
    const states: ResidencyStateMachine
    var tasks: seq<Task>
    var pendingByExpert: map<Key, TaskId>
    var queue: set<QueueEntry>
    var residentTransfers: map<Key, Transfer>
    var prefetchedReady: set<Key>
    var nextSequence: nat
    var stopping: bool

    ghost function View(workers: seq<Worker>): State
      reads this, states
    {
      State(states.states, tasks, pendingByExpert, queue, residentTransfers, prefetchedReady, nextSequence, stopping,
            workers)
    }

    constructor (config: Config)
      ensures this.config == config && fresh(states)
      ensures forall n: nat :: View(seq(n, _ => Idle)) == Initial(n)
    {
      this.config := config;
      states := new ResidencyStateMachine();
      tasks, pendingByExpert, queue := [], map[], {};
      residentTransfers, prefetchedReady := map[], {};
      nextSequence, stopping := 0, false;
    }

    method Schedule(r: ScheduleRequest, callback: Option<Callback>) returns (outcome: ScheduleOutcome)
      requires PendingOk(View([]))
      modifies this, states
      ensures (View([]), outcome) == SchedulerModel.Schedule(config, old(View([])), r, callback)
    {
      if stopping {
        return Rejected;
      }
      var k := r.Key();
      var snapshot := states.Snapshot(k);
      if snapshot == None {
        return Rejected;
      }
      var initialState := snapshot.value;
      var existing := k in pendingByExpert;
      ConsumePrefetch(r, initialState);
      var immediatelyReady := !existing && !r.eviction && initialState.currentLocation == r.destination
                              && (initialState.state == Ready || initialState.state == InUse);
      if immediatelyReady {
        if r.priority == PredictedNextLayer {
          prefetchedReady := prefetchedReady + {k};
        }
        outcome := ReadyNow;
      } else if existing && tasks[pendingByExpert[k]].request.destination != r.destination {
        outcome := Rejected;
      } else if existing {
        outcome := Coalesced(pendingByExpert[k]);
        JoinPending(pendingByExpert[k], r, callback);
      } else {
        outcome := OpenTask(r, callback);
      }
    }

    /** The accounting of active demand; it runs only under a profiler. */
    method ConsumePrefetch(r: ScheduleRequest, initialState: ExpertState)
      requires PendingOk(View([]))
      requires r.Key() in states.states && initialState == states.states[r.Key()]
      modifies this`prefetchedReady, this`tasks
      ensures View([]) == Consume(config, old(View([])), r)
    {
      var k := r.Key();
      if config.profiled && r.priority == ActiveInference {
        var erased := k in prefetchedReady;
        prefetchedReady := prefetchedReady - {k};
        if erased && initialState.currentLocation == r.destination && initialState.state == Ready {
          // a hit: only counters change
        } else if k in pendingByExpert && tasks[pendingByExpert[k]].prefetchRequest {
          if initialState.currentLocation == r.destination && initialState.state == Ready {
            var t := pendingByExpert[k];
            tasks := tasks[t := tasks[t].(activeConsumer := true)];
          }
        }
        assert !erased ==> prefetchedReady == old(prefetchedReady);
      }
    }

    /** A new task for an expert that has none. */
    method OpenTask(r: ScheduleRequest, callback: Option<Callback>) returns (outcome: ScheduleOutcome)
      modifies this, states
      ensures match Open(old(states.states), r)
        case Some(table) =>
          outcome == Accepted(old(|tasks|)) && View([]) == Enqueue(old(View([])), table, r, callback)
        case None => outcome == Rejected && View([]) == old(View([]))
    {
      var k := r.Key();
      if r.eviction {
        var ok := states.Transition(k, BeginEviction(r.destination));
        if !ok { return Rejected; }
      } else {
        var ok := states.Transition(k, Request(r.destination));
        if !ok { return Rejected; }
        ok := states.Transition(k, MarkQueued);
      }
      var t := |tasks|;
      tasks := tasks + [NewTask(r, callback, nextSequence)];
      pendingByExpert := pendingByExpert[k := t];
      queue := queue + {QueueEntry(t, r.priority, nextSequence, 0, r.score)};
      nextSequence := nextSequence + 1;
      outcome := Accepted(t);
    }

    method JoinPending(t: TaskId, r: ScheduleRequest, callback: Option<Callback>)
      requires t < |tasks|
      modifies this`tasks, this`queue, this`nextSequence
      ensures tasks == old(tasks)[t := JoinedTask(old(tasks)[t], r, callback, old(nextSequence))]
      ensures if !Upgrades(old(tasks)[t], r) then queue == old(queue) && nextSequence == old(nextSequence)
        else queue == old(queue) + {QueueEntry(t, tasks[t].request.priority, old(nextSequence), tasks[t].generation,
                                               tasks[t].request.score)}
             && nextSequence == old(nextSequence) + 1
    {
      var task := tasks[t];
      var callbacks := task.callbacks;
      if callback.Some? {
        callbacks := callbacks + [callback.value];
      }
      var activeConsumer := task.activeConsumer;
      if r.priority == ActiveInference {
        activeConsumer := true;
      }
      assert callbacks == task.callbacks + (if callback.Some? then [callback.value] else []);
      if !Upgrades(task, r) {
        tasks := tasks[t := task.(callbacks := callbacks, activeConsumer := activeConsumer)];
        return;
      }
      var priority := task.request.priority;
      if r.priority.Rank() > priority.Rank() {
        priority := r.priority;
      }
      var score := if r.score > task.request.score then r.score else task.request.score;
      var request := task.request.(priority := priority, score := score);
      tasks := tasks[t := task.(callbacks := callbacks, activeConsumer := activeConsumer, request := request,
                                generation := task.generation + 1, newest := nextSequence)];
      queue := queue + {QueueEntry(t, priority, nextSequence, task.generation + 1, score)};
      nextSequence := nextSequence + 1;
    }

    /** The best entry of the heap. */
    method Top() returns (best: QueueEntry)
      requires queue != {}
      requires forall e, f | e in queue && f in queue && e.sequence == f.sequence :: e == f
      ensures IsBest(best, queue)
    {
      best :| best in queue;
      var others := queue - {best};
      while others != {}
        invariant best in queue && others <= queue && best !in others
        invariant forall e | e in queue && e !in others && e != best :: Better(best, e)
        decreases |others|
      {
        var e :| e in others;
        others := others - {e};
        if Better(e, best) {
          forall x | x in queue && x !in others && x != e
            ensures Better(e, x)
          {
          }
          best := e;
        }
      }
    }

    /** The pop loop: entries come out best first; stale ones are dropped until
        a live one starts its task, or none is left. */
    method PopNext(w: nat, ghost workers: seq<Worker>) returns (next: Worker)
      requires w < |workers| && workers[w] == Idle
      requires forall e, f | e in queue && f in queue && e.sequence == f.sequence :: e == f
      requires forall e | e in queue :: e.task < |tasks|
      modifies this`queue, this`tasks
      ensures PopResult(old(View(workers)), w, View(workers[w := next]))
    {
      hide Better;
      ghost var live := set e | e in queue && Live(View(workers), e);
      while queue != {}
        invariant queue <= old(queue) && tasks == old(tasks)
        invariant forall e, x | e in old(queue) && e !in queue && x in queue :: Better(e, x)
        invariant live <= queue
        decreases |queue|
      {
        var entry := Top();
        queue := queue - {entry};
        var task := tasks[entry.task];
        if !task.completed && !task.started && entry.generation == task.generation {
          tasks := tasks[entry.task := task.(started := true, owner := w)];
          next := Popped(entry.task);
          assert entry in live && IsBest(entry, live);
          RestIsWorse(old(queue), queue, entry);
          return;
        }
      }
      assert live == {};
      next := if stopping then Exited else Idle;
    }

    /** The section after a finished transfer, with the trim loop. */
    method Commit(t: TaskId, transfer: Transfer, w: nat, ghost workers: seq<Worker>)
      returns (next: Worker, ghost candidates: seq<Key>)
      requires t < |tasks| && w < |workers| && workers[w] == Readied(t, transfer)
      modifies this`residentTransfers, this`prefetchedReady, states
      ensures Ascending(candidates)
      ensures forall k :: k in candidates <==> k in old(prefetchedReady) + {tasks[t].request.Key()}
      ensures View(workers[w := next]) == CommitWith(config, old(View(workers)), w, t, transfer, candidates)
    {
      var own := tasks[t].request.Key();
      candidates := SortedKeys(prefetchedReady + {own});
      if tasks[t].request.destination == Nvme {
        residentTransfers := residentTransfers - {own};
      } else {
        residentTransfers := residentTransfers[own := transfer];
      }
      next := Committed(t);
      if tasks[t].prefetchRequest && !tasks[t].activeConsumer {
        prefetchedReady := prefetchedReady + {own};
        var keys := SortedKeys(prefetchedReady);
        candidates := keys;
        var completed := TrimPrefetched(keys, own);
        if !completed {
          next := Failing(t, CommitAborted);
        }
      }
    }

    method TrimPrefetched(candidates: seq<Key>, own: Key) returns (completed: bool)
      modifies this`residentTransfers, this`prefetchedReady, states
      ensures Trimmed(states.states, residentTransfers, prefetchedReady, completed) ==
        TrimFrom(old(states.states), old(residentTransfers), old(prefetchedReady), candidates, own,
                 config.maximumPrefetchBytes, 0)
    {
      var cachedBytes := 0;
      var i := 0;
      ghost var goal := TrimFrom(states.states, residentTransfers, prefetchedReady, candidates, own,
                                 config.maximumPrefetchBytes, 0);
      assert candidates[0..] == candidates;
      while i < |candidates|
        invariant 0 <= i <= |candidates| && 0 <= cachedBytes <= config.maximumPrefetchBytes
        invariant goal == TrimFrom(states.states, residentTransfers, prefetchedReady, candidates[i..], own,
                                   config.maximumPrefetchBytes, cachedBytes)
      {
        var candidate := candidates[i];
        assert candidates[i..][0] == candidate && candidates[i..][1..] == candidates[i + 1..];
        if candidate in residentTransfers {
          var bytes := residentTransfers[candidate].bytes;
          if bytes > config.maximumPrefetchBytes - cachedBytes {
            residentTransfers := residentTransfers - {candidate};
            prefetchedReady := prefetchedReady - {candidate};
            if candidate != own {
              var ok := states.Transition(candidate, Reconcile(Nvme));
              if !ok {
                return false;
              }
            }
          } else {
            cachedBytes := cachedBytes + bytes;
          }
        }
        i := i + 1;
      }
      return true;
    }

    /** Expiry, in whatever order the set is walked: it runs to its end exactly
        when every expired expert can be sent back, and then just those are out;
        otherwise one that cannot be sent back is left without its payload. */
    method ExpirePrefetchesBefore(layer: Id32) returns (ok: bool, ghost order: seq<Key>)
      modifies this`residentTransfers, this`prefetchedReady, states
      ensures Enumerates(order, old(prefetchedReady))
      ensures (View([]), ok) == ExpireFrom(old(View([])), layer, order)
      ensures var expired := Expiry.Expired(old(prefetchedReady), layer);
        && (ok <==> Prefetching.Reconcilable(old(states.states), expired))
        && (ok ==> prefetchedReady == old(prefetchedReady) - expired)
        && (ok ==> residentTransfers == old(residentTransfers) - expired)
        && (!ok ==> exists k ::
              k in expired && !Prefetching.Reconcilable(old(states.states), {k}) && Expiry.Stranded(View([]), k))
    {
      hide ExpireFrom, KeyLayer;
      ghost var before := View([]);
      ok, order := WalkPrefetched(layer);
      Expiry.ExpiryExactly(before, layer, order);
    }

    /** The loop of expiry over the set. */
    method WalkPrefetched(layer: Id32) returns (ok: bool, ghost order: seq<Key>)
      modifies this`residentTransfers, this`prefetchedReady, states
      ensures Enumerates(order, old(prefetchedReady))
      ensures (View([]), ok) == ExpireFrom(old(View([])), layer, order)
    {
      var walk := SortedKeys(prefetchedReady);
      order := walk;
      ok := true;
      var i := 0;
      ghost var goal := ExpireFrom(View([]), layer, order);
      assert walk[0..] == walk;
      while i < |walk|
        invariant 0 <= i <= |walk|
        invariant goal == ExpireFrom(View([]), layer, walk[i..])
      {
        var current := walk[i];
        assert walk[i..][0] == current && walk[i..][1..] == walk[i + 1..];
        if KeyLayer(current) < layer {
          residentTransfers := residentTransfers - {current};
          ok := states.Transition(MakeKey(KeyLayer(current), KeyExpert(current)), Reconcile(Nvme));
          if !ok {
            return;
          }
          prefetchedReady := prefetchedReady - {current};
        }
        i := i + 1;
      }
    }

    /** Adoption of a transfer: refused for a pending expert, and refused by
        the lifecycle table only after the payload has been dropped. */
    method AcknowledgeResidency(k: Key, location: MemoryTier) returns (ok: bool)
      modifies this`residentTransfers, this`prefetchedReady, states
      ensures View([]) == Acknowledge(old(View([])), k, location)
      ensures ok <==> k !in pendingByExpert && FireAt(old(states.states), k, Reconcile(location)).Some?
      ensures !ok ==> states.states == old(states.states)
      ensures k in pendingByExpert ==>
        residentTransfers == old(residentTransfers) && prefetchedReady == old(prefetchedReady)
      ensures k !in pendingByExpert ==> k !in residentTransfers && k !in prefetchedReady
    {
      if k in pendingByExpert {
        return false;
      }
      residentTransfers := residentTransfers - {k};
      prefetchedReady := prefetchedReady - {k};
      ok := states.Transition(k, Reconcile(location));
    }

    /** Does nothing while a task is pending or a payload held; otherwise the
        lifecycle table may refuse. */
    method ReconcileResidency(k: Key, location: MemoryTier) returns (ok: bool)
      modifies states
      ensures View([]) == SchedulerModel.ReconcileResidency(old(View([])), k, location)
      ensures ok <==>
        k in pendingByExpert || k in residentTransfers || FireAt(old(states.states), k, Reconcile(location)).Some?
    {
      ok := true;
      if k !in pendingByExpert && k !in residentTransfers {
        ok := states.Transition(k, Reconcile(location));
      }
    }

    /** The answer of a call whose expert is in place: what is held at this
        moment, the callback, whose failure is ignored, and the promise. */
    method ReadyResult(k: Key, callback: Option<Callback>) returns (promise: seq<ScheduleResult>, ran: seq<Callback>)
      requires k in states.states
      ensures ran == if callback.Some? then [callback.value] else []
      ensures promise == [ScheduleResult(true, states.states[k], HeldFor(residentTransfers, k))]
    {
      promise, ran := [], [];
      var result := ScheduleResult(true, ExpertState(Nvme, Nvme, Ready, 0), None);
      if k in residentTransfers {
        result := result.(transfer := Some(residentTransfers[k]));
      }
      var snapshot := states.Snapshot(k);
      result := result.(state := snapshot.value);
      if callback.Some? {
        ran := ran + [callback.value];
      }
      promise := promise + [result];
    }

    /** A whole call, from the locked section to its return. Its callback is in
        one place only: run here, once, next to the one value of the promise;
        or attached to the task the call joined or opened, for that task to run
        and answer; or, when the call is refused, nowhere. */
    method Call(r: ScheduleRequest, callback: Callback)
      returns (outcome: ScheduleOutcome, promise: seq<ScheduleResult>, ran: seq<Callback>)
      requires PendingOk(View([])) && TableOk(states.states.Keys, tasks, pendingByExpert)
      modifies this, states
      ensures (View([]), outcome) == SchedulerModel.Schedule(config, old(View([])), r, Some(callback))
      ensures Theorems.Attached(old(View([])), View([]), outcome, callback)
      ensures outcome.ReadyNow? ==>
        && ran == [callback] && |promise| == 1 && promise[0].success && AlreadyThere(promise[0].state, r)
      ensures !outcome.ReadyNow? ==> ran == [] && promise == []
    {
      Theorems.CallbackIsAttached(config, View([]), r, callback);
      ReadyIsThere(config, View([]), r, Some(callback));
      hide SchedulerModel.Schedule, Theorems.Attached, TableOk;
      outcome := Schedule(r, Some(callback));
      promise, ran := [], [];
      if outcome.ReadyNow? {
        promise, ran := ReadyResult(r.Key(), Some(callback));
      }
    }

    /** The locked section of completing a task; the callbacks to run come out. */
    method CompleteTask(t: TaskId, success: bool, w: nat, ghost workers: seq<Worker>)
      returns (callbacks: seq<Callback>)
      requires t < |tasks| && !tasks[t].completed && w < |workers|
      modifies this`tasks, this`pendingByExpert
      ensures callbacks == old(tasks[t].callbacks)
      ensures View(workers[w := Delivering(t, success)]) == Complete(old(View(workers)), w, t, success)
    {
      tasks := tasks[t := tasks[t].(completed := true)];
      var k := tasks[t].request.Key();
      if k in pendingByExpert && pendingByExpert[k] == t {
        pendingByExpert := pendingByExpert - {k};
      }
      callbacks := tasks[t].callbacks;
    }

    /** The locked section of shutdown: every pending task is told to cancel. */
    method StopAccepting()
      requires PendingOk(View([]))
      modifies this`stopping, this`tasks
      ensures View([]) == BeginShutdown(old(View([])))
    {
      hide CancelPending, Named, PendingOk;
      if stopping {
        return;
      }
      PendingBound(View([]));
      hide Targets;
      stopping := true;
      var keys := pendingByExpert.Keys;
      ghost var first, gone: set<Key> := tasks, {};
      CancelNone(tasks, pendingByExpert);
      while keys != {}
        invariant stopping && gone + keys == pendingByExpert.Keys
        invariant tasks == CancelPending(first, Named(pendingByExpert, gone))
        decreases |keys|
      {
        var k :| k in keys;
        CancelOneMore(first, pendingByExpert, gone, k);
        var t := pendingByExpert[k];
        tasks := tasks[t := tasks[t].(cancelled := true)];
        keys, gone := keys - {k}, gone + {k};
      }
      AllNamed(pendingByExpert);
    }
  }

  // ---- what a pop leaves ----

  /** With every better entry gone, the rest is what the best one outranks. */
  lemma {:induction false} RestIsWorse(before: set<QueueEntry>, rest: set<QueueEntry>, entry: QueueEntry)
    requires rest + {entry} <= before && entry !in rest && IsBest(entry, rest + {entry})
    requires forall e | e in before && e !in rest && e != entry :: Better(e, entry)
    ensures rest == set x | x in before && Better(entry, x)
  {
    assert forall x | x in rest :: x in rest + {entry};
  }

  // ---- the tasks told to cancel ----

  function Named(pending: map<Key, TaskId>, keys: set<Key>): set<TaskId>
    requires keys <= pending.Keys
  {
    set k | k in keys :: pending[k]
  }

  lemma {:induction false} NameOneMore(pending: map<Key, TaskId>, keys: set<Key>, k: Key)
    requires keys <= pending.Keys && k in pending
    ensures Named(pending, keys + {k}) == Named(pending, keys) + {pending[k]}
  {
  }

  lemma {:induction false} AllNamed(pending: map<Key, TaskId>)
    ensures Named(pending, pending.Keys) == pending.Values
  {
    forall t | t in pending.Values ensures t in Named(pending, pending.Keys) {
      var k :| k in pending && pending[k] == t;
    }
  }

  lemma {:induction false} CancelNone(tasks: seq<Task>, pending: map<Key, TaskId>)
    ensures CancelPending(tasks, {}) == tasks
    ensures Named(pending, {}) == {}
  {
  }

  /** The pending tasks' identifiers are those of existing tasks. */
  predicate Targets(pending: map<Key, TaskId>, n: nat) {
    forall k | k in pending :: pending[k] < n
  }

  lemma {:induction false} PendingBound(s: State)
    requires PendingOk(s)
    ensures Targets(s.pending, |s.tasks|)
  {
  }

  lemma {:induction false} CancelOneMore(tasks: seq<Task>, pending: map<Key, TaskId>, gone: set<Key>, k: Key)
    requires Targets(pending, |tasks|) && gone <= pending.Keys && k in pending
    ensures pending[k] < |tasks|
    ensures var told, t := CancelPending(tasks, Named(pending, gone)), pending[k];
      told[t := told[t].(cancelled := true)] == CancelPending(tasks, Named(pending, gone + {k}))
  {
    NameOneMore(pending, gone, k);
    hide Named;
  }
}
