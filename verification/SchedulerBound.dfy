/**
The limit on prefetched bytes, step by step: what every commit leaves, when a
step passes the limit, and runs in which it does.
 */
module SchedulerBound {
  import opened Wrappers
  import opened Sums
  import opened ExpertStates
  import opened SchedulerModel
  import opened SchedulerInvariant
  import opened SchedulerTheorems
  import opened SchedulerPrefetch

  // ---- the greedy choice as a function of the state before the trim ----

  ghost function Greedy(resident: map<Key, Transfer>, keys: set<Key>, maximum: nat): (kept: set<Key>)
    ensures IsGreedy(kept, resident, keys, maximum)
  {
    assert exists kept :: IsGreedy(kept, resident, keys, maximum) by {
      var kept := GreedyOf(resident, keys, maximum);
    }
    var kept :| IsGreedy(kept, resident, keys, maximum);
    kept
  }

  lemma {:induction false} GreedyOf(resident: map<Key, Transfer>, keys: set<Key>, maximum: nat) returns (kept: set<Key>)
    ensures IsGreedy(kept, resident, keys, maximum)
    ensures SumMap(Payloads(kept, resident)) <= maximum
  {
    hide IsGreedy, SumMap;
    var order := AscendingOrder(keys);
    kept := GreedyExists(order, |order|, resident, maximum);
    assert order[..|order|] == order && Members(order) == keys;
  }

  /** What a trim over these keys throws out. */
  ghost function RejectedOf(resident: map<Key, Transfer>, keys: set<Key>, maximum: nat): set<Key> {
    set k | k in keys && k in resident && k !in Greedy(resident, keys, maximum)
  }

  ghost function UpTo(keys: set<Key>, last: Key): set<Key> {
    set k | k in keys && k <= last
  }

  /** The least rejected expert, the task's own aside, that cannot be sent back. */
  ghost predicate IsFirstRefusal(experts: Table, rejected: set<Key>, own: Key, a: Key) {
    && a in rejected && a != own && !Reconcilable(experts, {a})
    && forall k | k in rejected && k != own && k < a :: Reconcilable(experts, {k})
  }

  lemma {:induction false} FirstRefusalExists(experts: Table, rejected: set<Key>, own: Key, a: Key)
    returns (first: Key)
    requires a in rejected && a != own && !Reconcilable(experts, {a})
    ensures IsFirstRefusal(experts, rejected, own, first)
    decreases a
  {
    if b :| b in rejected && b != own && b < a && !Reconcilable(experts, {b}) {
      first := FirstRefusalExists(experts, rejected, own, b);
    } else {
      first := a;
    }
  }

  ghost function FirstRefusal(experts: Table, rejected: set<Key>, own: Key): (a: Key)
    requires !Reconcilable(experts, rejected - {own})
    ensures IsFirstRefusal(experts, rejected, own, a)
  {
    assert exists a :: IsFirstRefusal(experts, rejected, own, a) by {
      var a :| a in rejected - {own} && !Reconcilable(experts, {a});
      var first := FirstRefusalExists(experts, rejected, own, a);
    }
    var a :| IsFirstRefusal(experts, rejected, own, a);
    a
  }

  // ---- what a commit leaves ----

  /** The keys a speculative commit of this task trims over. */
  ghost function TrimKeys(s: State, t: TaskId): set<Key>
    requires t < |s.tasks|
  {
    s.prefetched + {s.tasks[t].request.Key()}
  }

  /** The guard of the aborting branch, on the state before the commit. */
  ghost predicate TrimAborts(c: Config, s: State, t: TaskId, transfer: Transfer)
    requires t < |s.tasks|
  {
    && Speculative(s.tasks[t])
    && !Reconcilable(s.experts, RejectedOf(Store(s, t, transfer), TrimKeys(s, t), c.maximumPrefetchBytes)
                                - {s.tasks[t].request.Key()})
  }

  /** Who is out after a speculative commit: everything rejected, or after an
      abort everything rejected up to the expert that could not be sent back. */
  ghost function ThrownOut(c: Config, s: State, t: TaskId, transfer: Transfer): set<Key>
    requires t < |s.tasks|
  {
    var own := s.tasks[t].request.Key();
    var rejected := RejectedOf(Store(s, t, transfer), TrimKeys(s, t), c.maximumPrefetchBytes);
    if Reconcilable(s.experts, rejected - {own}) then rejected
    else UpTo(rejected, FirstRefusal(s.experts, rejected, own))
  }

  /** The prefetched bytes after a commit, from the state before it. */
  ghost function BytesAfterCommit(c: Config, s: State, t: TaskId, transfer: Transfer): int
    requires t < |s.tasks|
  {
    var k := s.tasks[t].request.Key();
    if Speculative(s.tasks[t]) then
      SumMap(Payloads(TrimKeys(s, t) - ThrownOut(c, s, t, transfer), Store(s, t, transfer)))
    else
      PrefetchBytes(s) - HeldBytes(s.prefetched, s.resident, k) + HeldBytes(s.prefetched, Store(s, t, transfer), k)
  }

  function HeldBytes(prefetched: set<Key>, resident: map<Key, Transfer>, k: Key): nat {
    if k in prefetched && k in resident then resident[k].bytes else 0
  }

  ghost predicate CommitsAt(s: State, w: nat, t: TaskId, candidates: seq<Key>) {
    && w < |s.workers| && s.workers[w].Readied? && s.workers[w].task == t < |s.tasks|
    && Ascending(candidates) && forall k :: k in candidates <==> k in TrimKeys(s, t)
  }

  /** Every commit, aborted or not, leaves exactly these bytes; it aborts
      exactly when the guard says so. */
  lemma {:induction false} CommitAccounting(c: Config, s: State, w: nat, t: TaskId, candidates: seq<Key>)
    requires CommitsAt(s, w, t, candidates)
    ensures var transfer := s.workers[w].transfer;
      var s' := CommitWith(c, s, w, t, transfer, candidates);
      && s'.workers[w] == (if TrimAborts(c, s, t, transfer) then Failing(t, CommitAborted) else Committed(t))
      && PrefetchBytes(s') == BytesAfterCommit(c, s, t, transfer)
  {
    hide CommitWith, PrefetchBytes, BytesAfterCommit;
    if Speculative(s.tasks[t]) {
      TrimmedCommit(c, s, w, t, candidates);
    } else {
      PlainCommit(c, s, w, t, candidates);
    }
  }

  lemma {:induction false} TrimmedCommit(c: Config, s: State, w: nat, t: TaskId, candidates: seq<Key>)
    requires CommitsAt(s, w, t, candidates) && Speculative(s.tasks[t])
    ensures var transfer := s.workers[w].transfer;
      var s' := CommitWith(c, s, w, t, transfer, candidates);
      && s'.workers[w] == (if TrimAborts(c, s, t, transfer) then Failing(t, CommitAborted) else Committed(t))
      && PrefetchBytes(s') == BytesAfterCommit(c, s, t, transfer)
  {
    hide Reconcilable, FireAt, TrimFrom, SumMap, Payloads, Store, RejectedOf, FirstRefusal, UpTo, MakeKey;
    var transfer := s.workers[w].transfer;
    var own, resident := s.tasks[t].request.Key(), Store(s, t, transfer);
    TrimLeaves(s.experts, resident, TrimKeys(s, t), candidates, own, c.maximumPrefetchBytes);
    PayloadsWithout(TrimKeys(s, t), resident, ThrownOut(c, s, t, transfer));
  }

  lemma {:induction false} PayloadsWithout(keys: set<Key>, resident: map<Key, Transfer>, out: set<Key>)
    ensures Payloads(keys - out, resident - out) == Payloads(keys - out, resident)
  {
  }

  lemma {:induction false} PlainCommit(c: Config, s: State, w: nat, t: TaskId, candidates: seq<Key>)
    requires CommitsAt(s, w, t, candidates) && !Speculative(s.tasks[t])
    ensures var transfer := s.workers[w].transfer;
      var s' := CommitWith(c, s, w, t, transfer, candidates);
      && s'.workers[w] == Committed(t) && !TrimAborts(c, s, t, transfer)
      && PrefetchBytes(s') == BytesAfterCommit(c, s, t, transfer)
  {
    hide SumMap, Payloads, HeldBytes, MakeKey, TrimFrom;
    PlainCommitBytes(s.prefetched, s.resident, Store(s, t, s.workers[w].transfer), s.tasks[t].request.Key());
  }

  /** Only one payload changes: the bytes change by the difference. */
  lemma {:induction false} PlainCommitBytes(prefetched: set<Key>, resident: map<Key, Transfer>,
                                            stored: map<Key, Transfer>, k: Key)
    requires stored - {k} == resident - {k}
    ensures SumMap(Payloads(prefetched, stored))
         == SumMap(Payloads(prefetched, resident)) - HeldBytes(prefetched, resident, k)
            + HeldBytes(prefetched, stored, k)
  {
    hide SumMap, HeldBytes;
    WithoutOne(prefetched, resident, k);
    WithoutOne(prefetched, stored, k);
    forall j: Key | j != k
      ensures j in stored <==> j in resident
      ensures j in stored ==> stored[j] == resident[j]
    {
      assert j in stored - {k} <==> j in resident - {k};
      assert j in stored ==> (stored - {k})[j] == stored[j];
      assert j in resident ==> (resident - {k})[j] == resident[j];
    }
    assert Payloads(prefetched - {k}, stored) == Payloads(prefetched - {k}, resident);
  }

  lemma {:induction false} WithoutOne(prefetched: set<Key>, resident: map<Key, Transfer>, k: Key)
    ensures SumMap(Payloads(prefetched, resident))
         == SumMap(Payloads(prefetched - {k}, resident)) + HeldBytes(prefetched, resident, k)
  {
    if k in prefetched && k in resident {
      SumMapRemove(Payloads(prefetched, resident), k);
      assert Payloads(prefetched, resident) - {k} == Payloads(prefetched - {k}, resident);
    } else {
      assert Payloads(prefetched, resident) == Payloads(prefetched - {k}, resident);
    }
  }

  /** The trim loop from its start, run to its end or aborted. */
  lemma {:induction false} TrimLeaves(experts: Table, resident: map<Key, Transfer>, prefetched: set<Key>,
                                      candidates: seq<Key>, own: Key, maximum: nat)
    requires Ascending(candidates) && forall k :: k in candidates <==> k in prefetched
    ensures var rejected := RejectedOf(resident, prefetched, maximum);
      var trimmed := TrimFrom(experts, resident, prefetched, candidates, own, maximum, 0);
      && (trimmed.completed <==> Reconcilable(experts, rejected - {own}))
      && var out := if trimmed.completed then rejected else UpTo(rejected, FirstRefusal(experts, rejected, own));
         trimmed.prefetched == prefetched - out && trimmed.resident == resident - out
  {
    hide TrimFrom, Reconcilable, IsGreedy, SumMap, FireAt;
    var kept := Greedy(resident, prefetched, maximum);
    var rejected := RejectedOf(resident, prefetched, maximum);
    assert Members(candidates) == prefetched;
    assert RejectedIn(kept, resident, candidates) == rejected;
    StartsOnTrack(resident, candidates, maximum, kept);
    TrimFollowsGreedy(experts, resident, prefetched, candidates, own, maximum, 0, kept);
    if !Reconcilable(experts, rejected - {own}) {
      AbortStopsThere(experts, resident, prefetched, candidates, own, maximum, 0, kept,
                      FirstRefusal(experts, rejected, own));
    }
  }

  lemma {:induction false} StartsOnTrack(resident: map<Key, Transfer>, candidates: seq<Key>, maximum: nat, kept: set<Key>)
    requires IsGreedy(kept, resident, Members(candidates), maximum)
    requires Ascending(candidates)
    ensures OnTrack(kept, resident, candidates, maximum, 0)
  {
    if |candidates| > 0 {
      assert Below(kept, candidates[0]) == {} by {
        forall j | j in kept ensures j >= candidates[0] {
          assert j in Members(candidates);
          var m :| 0 <= m < |candidates| && candidates[m] == j;
        }
      }
      assert Payloads({}, resident) == map[];
      forall k | k in candidates ensures k in Members(candidates) {
      }
    }
  }

  /** An aborted trim has thrown out what is rejected up to the expert that
      could not be sent back, and nothing beyond it. */
  lemma {:induction false} AbortStopsThere(experts: Table, resident: map<Key, Transfer>, prefetched: set<Key>,
                                           rest: seq<Key>, own: Key, maximum: nat, cached: nat, kept: set<Key>, a: Key)
    requires Ascending(rest) && OnTrack(kept, resident, rest, maximum, cached)
    requires IsFirstRefusal(experts, RejectedIn(kept, resident, rest), own, a)
    ensures var out := UpTo(RejectedIn(kept, resident, rest), a);
      var trimmed := TrimFrom(experts, resident, prefetched, rest, own, maximum, cached);
      trimmed.prefetched == prefetched - out && trimmed.resident == resident - out
    decreases |rest|
  {
    hide TrimFrom, OnTrack, Reconcilable, FireOrSame, Payloads, BytesBelow, FireAt;
    var k := rest[0];
    var rejected, later := RejectedIn(kept, resident, rest), RejectedIn(kept, resident, rest[1..]);
    OnTrackNext(kept, resident, rest, maximum, cached);
    RejectedNext(kept, resident, rest);
    LaterAreLarger(kept, resident, rest);
    if k in resident && k !in kept {
      TrimDrops(experts, resident, prefetched, rest, own, maximum, cached);
      OnTrackWithout(kept, resident, rest[1..], maximum, cached, k);
      assert k == a || k == own || Reconcilable(experts, {k});
      if k == a {
        assert UpTo(rejected, a) == {k};
      } else {
        var table := if k == own then experts else FireOrSame(experts, k);
        forall j | j in later
          ensures Reconcilable(table, {j}) <==> Reconcilable(experts, {j})
        {
          ReconcileOthers(experts, k, {j});
        }
        assert a in later;
        AbortStopsThere(table, resident - {k}, prefetched - {k}, rest[1..], own, maximum, cached, kept, a);
        assert UpTo(rejected, a) == UpTo(later, a) + {k};
        assert resident - {k} - UpTo(later, a) == resident - UpTo(rejected, a);
      }
    } else {
      var size := if k in resident then resident[k].bytes else 0;
      TrimKeepsOne(experts, resident, prefetched, rest, own, maximum, cached);
      AbortStopsThere(experts, resident, prefetched, rest[1..], own, maximum, cached + size, kept, a);
    }
  }

  lemma {:induction false} LaterAreLarger(kept: set<Key>, resident: map<Key, Transfer>, rest: seq<Key>)
    requires Ascending(rest) && rest != []
    ensures forall j | j in RejectedIn(kept, resident, rest[1..]) :: j > rest[0]
  {
  }

  // ---- when a step keeps the limit ----

  /** A prefetch of an expert that is in place with a payload nobody counts. */
  predicate CountsInPlace(s: State, r: ScheduleRequest) {
    var k := r.Key();
    && !s.stopping && r.priority == PredictedNextLayer && !r.eviction
    && k in s.experts && k !in s.pending && AlreadyThere(s.experts[k], r)
    && k in s.resident && k !in s.prefetched
  }

  /** Judged before the step: whether it leaves the total within the limit. */
  ghost predicate StaysWithin(c: Config, s: State, step: Step) {
    match step
    case ScheduleStep(r, _) =>
      CountsInPlace(s, r) ==> PrefetchBytes(s) + s.resident[r.Key()].bytes <= c.maximumPrefetchBytes
    case CommitStep(w, _) =>
      w < |s.workers| && s.workers[w].Readied? && s.workers[w].task < |s.tasks| ==>
        BytesAfterCommit(c, s, s.workers[w].task, s.workers[w].transfer) <= c.maximumPrefetchBytes
    case _ => true
  }

  /** From a state within the limit a step leads to one within it exactly when
      the state before it says so. */
  lemma {:induction false} BoundExactly(c: Config, s: State, step: Step, s': State)
    requires Next(c, s, step, s') && PrefetchBytes(s) <= c.maximumPrefetchBytes
    ensures PrefetchBytes(s') <= c.maximumPrefetchBytes <==> StaysWithin(c, s, step)
  {
    if step.CommitStep? {
      hide PrefetchBytes, BytesAfterCommit, CommitWith, Store;
      CommitAccounting(c, s, step.worker, s.workers[step.worker].task, step.candidates);
    } else if IsWorkerStep(step) {
      WorkersMovePayloadsByCommit(c, s, step, s');
    } else if step.ScheduleStep? {
      ScheduleBytes(c, s, step.request, step.callback);
    } else {
      ClientsNeverRaise(c, s, step, s');
    }
  }

  lemma {:induction false} ScheduleBytes(c: Config, s: State, r: ScheduleRequest, callback: Option<Callback>)
    requires PendingOk(s)
    ensures var s' := Schedule(c, s, r, callback).0;
      if CountsInPlace(s, r) then PrefetchBytes(s') == PrefetchBytes(s) + s.resident[r.Key()].bytes
      else PrefetchBytes(s') <= PrefetchBytes(s)
  {
    ScheduleAccounting(c, s, r, callback);
    hide PrefetchBytes, FireAt, Open, Join, Enqueue, Consume, MakeKey;
  }

  /** The three ways past the trim, all judged before the step: a payload that
      is in place starts to count, a plain commit stores a payload for a
      prefetched expert, a trim aborts. */
  ghost predicate SkipsTrim(c: Config, s: State, step: Step) {
    match step
    case ScheduleStep(r, _) => CountsInPlace(s, r)
    case CommitStep(w, _) =>
      w < |s.workers| && s.workers[w].Readied? && s.workers[w].task < |s.tasks| &&
      var t := s.workers[w].task;
      if Speculative(s.tasks[t]) then TrimAborts(c, s, t, s.workers[w].transfer)
      else s.tasks[t].request.Key() in s.prefetched && s.tasks[t].request.destination != Nvme
    case _ => false
  }

  /** Every other step keeps the limit. */
  lemma {:induction false} BoundKept(c: Config, s: State, step: Step, s': State)
    requires Next(c, s, step, s') && !SkipsTrim(c, s, step)
    requires PrefetchBytes(s) <= c.maximumPrefetchBytes
    ensures PrefetchBytes(s') <= c.maximumPrefetchBytes
  {
    BoundExactly(c, s, step, s');
    if step.CommitStep? {
      var w := step.worker;
      var t, transfer := s.workers[w].task, s.workers[w].transfer;
      if Speculative(s.tasks[t]) {
        CompletedFits(c, s, t, transfer);
      }
    }
  }

  lemma {:induction false} CompletedFits(c: Config, s: State, t: TaskId, transfer: Transfer)
    requires t < |s.tasks| && Speculative(s.tasks[t]) && !TrimAborts(c, s, t, transfer)
    ensures BytesAfterCommit(c, s, t, transfer) <= c.maximumPrefetchBytes
  {
    hide Reconcilable, SumMap, IsGreedy;
    var resident, keys := Store(s, t, transfer), TrimKeys(s, t);
    var order := AscendingOrder(keys);
    assert Members(order) == keys;
    var kept := Greedy(resident, keys, c.maximumPrefetchBytes);
    GreedyFits(order, resident, c.maximumPrefetchBytes, kept);
    KeptPayloads(resident, keys, c.maximumPrefetchBytes);
  }

  lemma {:induction false} KeptPayloads(resident: map<Key, Transfer>, keys: set<Key>, maximum: nat)
    ensures Payloads(keys - RejectedOf(resident, keys, maximum), resident)
         == Payloads(Greedy(resident, keys, maximum), resident)
  {
  }

  // ---- runs in which the limit is passed ----

  /** A reachable state within the limit and a step that leads beyond it. */
  ghost predicate BreaksBound(c: Config, s: State, step: Step, s': State) {
    && Reachable(c, 1, s) && Next(c, s, step, s')
    && PrefetchBytes(s) <= c.maximumPrefetchBytes < PrefetchBytes(s')
  }

  lemma {:induction false} NothingHeld(prefetched: set<Key>)
    ensures SumMap(Payloads(prefetched, map[])) == 0
    ensures forall resident: map<Key, Transfer> :: SumMap(Payloads({}, resident)) == 0
  {
    assert Payloads(prefetched, map[]) == map[];
    forall resident: map<Key, Transfer> ensures Payloads({}, resident) == map[] {
    }
  }

  /** First exception: an expert loaded on demand with a payload of 100 bytes
      is prefetched again while it is in place. */
  lemma {:induction false} DirectInsertBreaksBound(c: Config)
    requires c == Config(false, 10)
    ensures exists s, r, s' :: CountsInPlace(s, r) && BreaksBound(c, s, ScheduleStep(r, None), s')
  {
    hide Reachable;
    var demand := ScheduleRequest(0, 7, Vram, ActiveInference, false, 0.0);
    var s := LoadOne(c, demand, Transfer(100));
    var r := demand.(priority := PredictedNextLayer);
    var s' := Schedule(c, s, r, None).0;
    ScheduleBytes(c, s, r, None);
    NothingHeld({});
    assert CountsInPlace(s, r) && BreaksBound(c, s, ScheduleStep(r, None), s');
  }

  /** Second exception: an expert registered in device memory is prefetched
      there, which counts no payload; then it is loaded to host memory on
      demand, and the plain commit stores 100 bytes that nobody trims. */
  lemma {:induction false} PlainCommitBreaksBound(c: Config)
    requires c == Config(false, 10)
    ensures exists s, step, s' :: BreaksBound(c, s, step, s') && step.CommitStep? && s'.workers == [Committed(0)]
                                  && !Speculative(s.tasks[0])
  {
    hide Reachable, Next;
    var s := PlainCommitRun(c);
    var s' := CommitWith(c, s, 0, 0, Transfer(100), [7]);
    CommitAccounting(c, s, 0, 0, [7]);
    NothingHeld({7});
    NextCommit(c, s, 0, Transfer(100), [7]);
    assert BreaksBound(c, s, CommitStep(0, [7]), s');
  }

  lemma {:induction false} NextCommit(c: Config, s: State, t: TaskId, transfer: Transfer, order: seq<Key>)
    requires t < |s.tasks| && s.workers == [Readied(t, transfer)]
    requires Ascending(order) && forall k :: k in order <==> k in TrimKeys(s, t)
    ensures Next(c, s, CommitStep(0, order), CommitWith(c, s, 0, t, transfer, order))
  {
    hide CommitWith, ClientNext;
  }

  lemma {:induction false} PlainCommitRun(c: Config) returns (s: State)
    requires c == Config(false, 10)
    ensures Reachable(c, 1, s) && s.workers == [Readied(0, Transfer(100))]
    ensures |s.tasks| == 1 && !Speculative(s.tasks[0]) && s.tasks[0].request.Key() == 7
    ensures s.tasks[0].request.destination == Ram && s.resident == map[] && s.prefetched == {7}
  {
    hide Reachable, Next;
    ReachableStart(c, 1);
    var s1 := Initial(1).(experts := map[7 := ExpertState(Vram, Vram, Ready, 0)]);
    RegisterInVram(c, Initial(1), 7);
    var prefetch := Prefetch(7);
    var s2 := Schedule(c, s1, prefetch, None).0;
    ReachSchedule(c, s1, prefetch);
    assert s2 == s1.(prefetched := {7});
    var demand := ScheduleRequest(0, 7, Ram, ActiveInference, false, 0.0);
    var s3 := Schedule(c, s2, demand, None).0;
    ReachSchedule(c, s2, demand);
    assert s3.tasks == [NewTask(demand, None, 0)] && s3.queue == {Newest(0, s3.tasks[0])};
    var s4 := PopAndClear(c, s3, 0);
    s := WalkLoad(c, s4, 0, Transfer(100));
  }

  lemma {:induction false} RegisterInVram(c: Config, s: State, k: Key)
    requires Reachable(c, 1, s) && k !in s.experts
    ensures Reachable(c, 1, s.(experts := s.experts[k := ExpertState(Vram, Vram, Ready, 0)]))
  {
    hide Reachable, WorkerNext;
    ReachableNext(c, 1, s, RegisterStep(k, Vram), s.(experts := s.experts[k := ExpertState(Vram, Vram, Ready, 0)]));
  }

  /** Third exception: experts 2 and 3 are prefetched with 4 bytes each, 2 is
      taken into use; then 1 is prefetched with 8 bytes. The trim keeps 1,
      rejects 2, cannot send it back and aborts, so 3 stays beside 1. */
  lemma {:induction false} AbortBreaksBound(c: Config)
    requires c == Config(false, 10)
    ensures exists s, step, s', t: TaskId, transfer ::
      BreaksBound(c, s, step, s') && step.CommitStep? && AbortsAt(c, s, t, transfer)
  {
    hide Reachable, Next, TrimFrom, TrimAborts, CommitWith, BytesAfterCommit, PrefetchBytes, Speculative;
    var s, t := AbortRun(c);
    var order: seq<Key> := [1, 2, 3];
    var s' := CommitWith(c, s, 0, t, Transfer(8), order);
    CommitAccounting(c, s, 0, t, order);
    AbortBytes(c, s, t);
    NextCommit(c, s, t, Transfer(8), order);
    assert s'.workers[0] == Failing(t, CommitAborted);
    assert AbortsAt(c, s, t, Transfer(8)) && BreaksBound(c, s, CommitStep(0, order), s');
  }

  ghost predicate AbortsAt(c: Config, s: State, t: TaskId, transfer: Transfer) {
    s.workers == [Readied(t, transfer)] && t < |s.tasks| && TrimAborts(c, s, t, transfer)
  }

  lemma {:induction false} AbortBytes(c: Config, s: State, t: TaskId)
    requires c == Config(false, 10) && t < |s.tasks| && s.tasks[t].request == Prefetch(1) && Speculative(s.tasks[t])
    requires s.workers == [Readied(t, Transfer(8))]
    requires s.resident == map[2 := Transfer(4), 3 := Transfer(4)] && s.prefetched == {2, 3}
    requires 2 in s.experts && s.experts[2].state == InUse
    ensures PrefetchBytes(s) == 8
    ensures PrefetchBytes(CommitWith(c, s, 0, t, Transfer(8), [1, 2, 3])) == 12
    ensures CommitWith(c, s, 0, t, Transfer(8), [1, 2, 3]).workers == [Failing(t, CommitAborted)]
  {
    hide TrimFrom, FireAt, SumMap;
    var order: seq<Key> := [1, 2, 3];
    var stored := s.resident[1 := Transfer(8)];
    assert order[1..] == [2, 3];
    TrimKeepsOne(s.experts, stored, {1, 2, 3}, order, 1, 10, 0);
    TrimDrops(s.experts, stored, {1, 2, 3}, [2, 3], 1, 10, 8);
    var s' := CommitWith(c, s, 0, t, Transfer(8), order);
    assert s.prefetched + {1} == {1, 2, 3};
    assert s'.resident == stored - {2} && s'.prefetched == {1, 3};
    TwoPayloads(s.prefetched, s.resident, 2, 4, 3, 4);
    TwoPayloads(s'.prefetched, s'.resident, 1, 8, 3, 4);
  }

  lemma {:induction false} TwoPayloads(prefetched: set<Key>, resident: map<Key, Transfer>, a: Key, m: nat, b: Key, n: nat)
    requires a != b && prefetched == {a, b} && resident == map[a := Transfer(m), b := Transfer(n)]
    ensures SumMap(Payloads(prefetched, resident)) == m + n
  {
    var none: map<Key, nat> := map[];
    assert SumMap(none) == 0;
    assert Payloads(prefetched, resident) == none[a := m][b := n];
    SumMapInsert(none, a, m);
    SumMapInsert(none[a := m], b, n);
  }

  lemma {:induction false} AbortRun(c: Config) returns (s: State, t: TaskId)
    requires c == Config(false, 10)
    ensures Reachable(c, 1, s) && t < |s.tasks| && s.tasks[t].request == Prefetch(1) && Speculative(s.tasks[t])
    ensures s.workers == [Readied(t, Transfer(8))]
    ensures s.resident == map[2 := Transfer(4), 3 := Transfer(4)] && s.prefetched == {2, 3}
    ensures 2 in s.experts && s.experts[2].state == InUse
  {
    hide Reachable, Next, TrimFrom;
    ReachableStart(c, 1);
    var s1 := ReachReadied(c, Initial(1), 2, 4);
    var order2: seq<Key> := [2];
    assert order2[1..] == [];
    TrimKeepsOne(s1.experts, map[2 := Transfer(4)], {2}, order2, 2, 10, 0);
    TrimNothing(s1.experts, map[2 := Transfer(4)], {2}, 2, 10, 4);
    assert s1.resident[2 := Transfer(4)] == map[2 := Transfer(4)] && s1.prefetched + {2} == {2};
    var s2 := FinishCommit(c, s1, 2, 4, order2);
    var s3 := FireOrKeep(s2, 2, Acquire);
    ReachAcquire(c, s2, 2);
    var s4 := ReachReadied(c, s3, 3, 4);
    var order3: seq<Key> := [2, 3];
    assert order3[1..] == [3] && order3[1..][1..] == [];
    var both := map[2 := Transfer(4), 3 := Transfer(4)];
    assert s4.resident[3 := Transfer(4)] == both && s4.prefetched + {3} == {2, 3};
    TrimKeepsOne(s4.experts, both, {2, 3}, order3, 3, 10, 0);
    TrimKeepsOne(s4.experts, both, {2, 3}, [3], 3, 10, 4);
    TrimNothing(s4.experts, both, {2, 3}, 3, 10, 8);
    var s5 := FinishCommit(c, s4, 3, 4, order3);
    t := |s5.tasks|;
    s := ReachReadied(c, s5, 1, 8);
  }

  lemma {:induction false} TrimNothing(experts: Table, resident: map<Key, Transfer>, prefetched: set<Key>, own: Key,
                                       maximum: nat, cached: nat)
    ensures TrimFrom(experts, resident, prefetched, [], own, maximum, cached)
         == Trimmed(experts, resident, prefetched, true)
  {
  }

  /** One idle worker and nothing pending: a new expert is prefetched, up to
      the state before its commit. */
  lemma {:induction false} ReachReadied(c: Config, s: State, k: Id32, bytes: nat) returns (s': State)
    requires Reachable(c, 1, s) && s.workers == [Idle] && s.queue == {} && s.pending == map[] && !s.stopping
    requires k !in s.experts
    ensures Reachable(c, 1, s') && s'.workers == [Readied(|s.tasks|, Transfer(bytes))]
    ensures s'.experts == s.experts[k := ExpertState(Vram, Vram, Ready, 0)] && s'.pending == map[k := |s.tasks|]
    ensures s'.queue == {} && s'.resident == s.resident && s'.prefetched == s.prefetched && !s'.stopping
    ensures |s'.tasks| == |s.tasks| + 1 && s'.tasks[|s.tasks|].request == Prefetch(k)
    ensures var task := s'.tasks[|s.tasks|]; Speculative(task) && task.callbacks == task.ran == []
  {
    hide Reachable, Next;
    var r, t := Prefetch(k), |s.tasks|;
    var s1 := s.(experts := s.experts[k := ExpertState(Nvme, Nvme, Ready, 0)]);
    ReachRegister(c, s, k);
    var s2 := Schedule(c, s1, r, None).0;
    assert s2.tasks[t] == NewTask(r, None, s1.nextSequence);
    ReachSchedule(c, s1, r);
    assert s2.queue == {Newest(t, s2.tasks[t])};
    var s3 := PopAndClear(c, s2, t);
    s' := WalkLoad(c, s3, t, Transfer(bytes));
  }

  /** The commit of the only pending load, when the trim throws nothing out. */
  lemma {:induction false} FinishCommit(c: Config, s: State, k: Id32, bytes: nat, order: seq<Key>) returns (s': State)
    requires Reachable(c, 1, s) && |s.tasks| > 0 && !s.stopping && s.queue == {}
    requires var t := |s.tasks| - 1;
      && s.workers == [Readied(t, Transfer(bytes))] && s.pending == map[k := t]
      && s.tasks[t].request == Prefetch(k) && Speculative(s.tasks[t])
      && s.tasks[t].callbacks == s.tasks[t].ran == []
    requires Ascending(order) && forall j :: j in order <==> j in s.prefetched + {k as Key}
    requires TrimFrom(s.experts, s.resident[k := Transfer(bytes)], s.prefetched + {k}, order, k, c.maximumPrefetchBytes, 0)
          == Trimmed(s.experts, s.resident[k := Transfer(bytes)], s.prefetched + {k}, true)
    ensures Reachable(c, 1, s') && |s'.tasks| == |s.tasks|
    ensures s' == s.(resident := s.resident[k := Transfer(bytes)], prefetched := s.prefetched + {k}, pending := map[],
                     tasks := s'.tasks, workers := [Idle])
  {
    hide Reachable, Next, TrimFrom;
    var t := |s.tasks| - 1;
    var s1 := CommitWith(c, s, 0, t, Transfer(bytes), order);
    ReachCommit(c, s, t, Transfer(bytes), order);
    var s2 := Complete(s1, 0, t, true);
    ReachComplete(c, s1, t);
    assert s2.pending == map[];
    s' := Deliver(s2, 0, t, true);
    ReachDeliver(c, s2, t);
  }
}
