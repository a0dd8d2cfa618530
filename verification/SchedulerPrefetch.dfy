/**
The speculative memory bound: what the trim loop keeps, when it aborts, and
runs that show what can happen then.
 */
module SchedulerPrefetch {
  import opened Wrappers
  import opened Sums
  import opened ExpertStates
  import opened SchedulerModel
  import opened SchedulerInvariant
  import opened SchedulerTheorems

  /** Payload sizes of the given keys, as far as a payload is held. */
  ghost function Payloads(keys: set<Key>, resident: map<Key, Transfer>): map<Key, nat> {
    map k | k in keys && k in resident :: resident[k].bytes
  }

  /** Bytes held for prefetched experts. */
  ghost function PrefetchBytes(s: State): nat {
    SumMap(Payloads(s.prefetched, s.resident))
  }

  ghost function Members(order: seq<Key>): set<Key> {
    set k | k in order
  }

  ghost function Below(keys: set<Key>, bound: int): set<Key> {
    set k | k in keys && k < bound
  }

  /** Bytes of the kept keys below a key. */
  ghost function BytesBelow(kept: set<Key>, resident: map<Key, Transfer>, bound: int): nat {
    SumMap(Payloads(Below(kept, bound), resident))
  }

  /** The greedy choice in ascending key order: a candidate with a payload is
      kept exactly when it fits beside the kept candidates below it. */
  ghost predicate IsGreedy(kept: set<Key>, resident: map<Key, Transfer>, candidates: set<Key>, maximum: nat) {
    && (forall k | k in kept :: k in candidates && k in resident)
    && (forall k | k in candidates && k in resident ::
          k in kept <==> BytesBelow(kept, resident, k) + resident[k].bytes <= maximum)
  }

  /** What a greedy trim throws out of these candidates. */
  ghost function RejectedIn(kept: set<Key>, resident: map<Key, Transfer>, candidates: seq<Key>): set<Key> {
    set k | k in candidates && k in resident && k !in kept
  }

  /** The loop stands before these candidates, having kept just what the
      greedy choice keeps below them. */
  ghost predicate OnTrack(kept: set<Key>, resident: map<Key, Transfer>, rest: seq<Key>, maximum: nat, cached: nat) {
    && cached <= maximum
    && (forall k | k in kept :: k in resident)
    && (forall k | k in rest && k in resident ::
          k in kept <==> BytesBelow(kept, resident, k) + resident[k].bytes <= maximum)
    && (rest != [] ==> cached == BytesBelow(kept, resident, rest[0]))
    && (rest != [] ==> forall k | k in kept && rest[0] <= k :: k in rest)
  }

  lemma {:induction false} OnTrackNext(kept: set<Key>, resident: map<Key, Transfer>, rest: seq<Key>, maximum: nat,
                                       cached: nat)
    requires Ascending(rest) && rest != [] && OnTrack(kept, resident, rest, maximum, cached)
    ensures rest[0] in resident ==> (rest[0] in kept <==> resident[rest[0]].bytes <= maximum - cached)
    ensures OnTrack(kept, resident, rest[1..], maximum,
                    cached + if rest[0] in kept then resident[rest[0]].bytes else 0)
  {
    var k := rest[0];
    if |rest| > 1 {
      var below, upto := Below(kept, k), Below(kept, rest[1]);
      assert forall j | j in kept && k < j :: j in rest[1..] && rest[1] <= j;
      assert forall j :: j in upto <==> j in below || (j == k && k in kept);
      if k in kept {
        assert Payloads(upto, resident) == Payloads(below, resident)[k := resident[k].bytes];
        SumMapInsert(Payloads(below, resident), k, resident[k].bytes);
      } else {
        assert upto == below;
      }
    }
  }

  /** Throwing out a rejected candidate leaves the loop on track. */
  lemma {:induction false} OnTrackWithout(kept: set<Key>, resident: map<Key, Transfer>, rest: seq<Key>, maximum: nat,
                                        cached: nat, k: Key)
    requires OnTrack(kept, resident, rest, maximum, cached) && k !in kept
    ensures OnTrack(kept, resident - {k}, rest, maximum, cached)
  {
    forall bound: int
      ensures BytesBelow(kept, resident - {k}, bound) == BytesBelow(kept, resident, bound)
    {
      assert Payloads(Below(kept, bound), resident - {k}) == Payloads(Below(kept, bound), resident);
    }
  }

  lemma {:induction false} RejectedNext(kept: set<Key>, resident: map<Key, Transfer>, rest: seq<Key>)
    requires Ascending(rest) && rest != []
    ensures var k := rest[0];
      var later := RejectedIn(kept, resident, rest[1..]);
      && k !in later && RejectedIn(kept, resident - {k}, rest[1..]) == later
      && RejectedIn(kept, resident, rest) == later + if k in resident && k !in kept then {k} else {}
  {
  }

  /** The loop over the remaining candidates does what the greedy choice says:
      it runs to its end exactly when every rejected expert but the task's own
      can be sent back, and then the rejected ones are out. */
  ghost predicate TrimsTo(trimmed: Trimmed, experts: Table, resident: map<Key, Transfer>, prefetched: set<Key>,
                          rejected: set<Key>, own: Key) {
    && (trimmed.completed <==> Reconcilable(experts, rejected - {own}))
    && (trimmed.completed ==> trimmed.prefetched == prefetched - rejected && trimmed.resident == resident - rejected)
  }

  lemma {:induction false} NothingToTrim(experts: Table, resident: map<Key, Transfer>, prefetched: set<Key>, own: Key,
                                         maximum: nat, cached: nat, kept: set<Key>)
    ensures TrimsTo(TrimFrom(experts, resident, prefetched, [], own, maximum, cached),
                    experts, resident, prefetched, RejectedIn(kept, resident, []), own)
  {
    assert RejectedIn(kept, resident, []) == {} && resident - {} == resident;
  }

  lemma {:induction false} TrimFollowsGreedy(experts: Table, resident: map<Key, Transfer>, prefetched: set<Key>,
                                             rest: seq<Key>, own: Key, maximum: nat, cached: nat, kept: set<Key>)
    requires Ascending(rest) && OnTrack(kept, resident, rest, maximum, cached)
    ensures TrimsTo(TrimFrom(experts, resident, prefetched, rest, own, maximum, cached),
                    experts, resident, prefetched, RejectedIn(kept, resident, rest), own)
    decreases |rest|
  {
    hide TrimFrom, OnTrack, TrimsTo, Reconcilable, RejectedIn, FireOrSame, Payloads, BytesBelow, FireAt;
    if rest == [] {
      NothingToTrim(experts, resident, prefetched, own, maximum, cached, kept);
    } else {
      var k := rest[0];
      OnTrackNext(kept, resident, rest, maximum, cached);
      RejectedNext(kept, resident, rest);
      if k in resident && k !in kept {
        TrimDrops(experts, resident, prefetched, rest, own, maximum, cached);
        OnTrackWithout(kept, resident, rest[1..], maximum, cached, k);
        var table := if k == own then experts else FireOrSame(experts, k);
        TrimFollowsGreedy(table, resident - {k}, prefetched - {k}, rest[1..], own, maximum, cached, kept);
        RejectOne(TrimFrom(experts, resident, prefetched, rest, own, maximum, cached),
                  TrimFrom(table, resident - {k}, prefetched - {k}, rest[1..], own, maximum, cached),
                  experts, table, resident, prefetched, k, RejectedIn(kept, resident, rest[1..]), own);
      } else {
        var size := if k in resident then resident[k].bytes else 0;
        assert RejectedIn(kept, resident, rest) == RejectedIn(kept, resident, rest[1..]);
        TrimKeepsOne(experts, resident, prefetched, rest, own, maximum, cached);
        TrimFollowsGreedy(experts, resident, prefetched, rest[1..], own, maximum, cached + size, kept);
      }
    }
  }

  /** One turn of the loop that throws nothing out. */
  lemma {:induction false} TrimKeepsOne(experts: Table, resident: map<Key, Transfer>, prefetched: set<Key>,
                                        rest: seq<Key>, own: Key, maximum: nat, cached: nat)
    requires rest != [] && (rest[0] in resident ==> resident[rest[0]].bytes <= maximum - cached)
    ensures TrimFrom(experts, resident, prefetched, rest, own, maximum, cached) ==
      TrimFrom(experts, resident, prefetched, rest[1..], own, maximum,
               cached + if rest[0] in resident then resident[rest[0]].bytes else 0)
  {
  }

  /** One turn of the loop that throws its candidate out. */
  lemma {:induction false} TrimDrops(experts: Table, resident: map<Key, Transfer>, prefetched: set<Key>,
                                     rest: seq<Key>, own: Key, maximum: nat, cached: nat)
    requires rest != [] && rest[0] in resident && resident[rest[0]].bytes > maximum - cached
    ensures var k := rest[0];
      var table := if k == own then experts else FireOrSame(experts, k);
      var outer := TrimFrom(experts, resident, prefetched, rest, own, maximum, cached);
      if k == own || Reconcilable(experts, {k})
      then outer == TrimFrom(table, resident - {k}, prefetched - {k}, rest[1..], own, maximum, cached)
      else outer == Trimmed(experts, resident - {k}, prefetched - {k}, false)
  {
    ReconcileOthers(experts, rest[0], {});
  }

  /** Throwing one candidate out, then the later ones. */
  lemma {:induction false} RejectOne(outer: Trimmed, inner: Trimmed, experts: Table, table: Table, resident: map<Key,
                                     Transfer>, prefetched: set<Key>, k: Key, later: set<Key>, own: Key)
    requires k !in later
    requires table == if k == own then experts else FireOrSame(experts, k)
    requires TrimsTo(inner, table, resident - {k}, prefetched - {k}, later, own)
    requires if k == own || Reconcilable(experts, {k}) then outer == inner else !outer.completed
    ensures TrimsTo(outer, experts, resident, prefetched, later + {k}, own)
  {
    assert resident - {k} - later == resident - (later + {k});
    assert prefetched - {k} - later == prefetched - (later + {k});
    ReconcileOthers(experts, k, later - {own});
    assert forall j | j in later - {own} :: j in later + {k} - {own};
    assert k != own ==> k in later + {k} - {own};
    assert forall j | j in later + {k} - {own} :: j == k || j in later - {own};
  }

  /** Every one of these experts could be sent back to NVMe. */
  ghost predicate Reconcilable(experts: Table, keys: set<Key>) {
    forall k | k in keys :: k in experts && experts[k].state !in {InUse, Loading, Queued, Evicting}
  }

  function FireOrSame(experts: Table, k: Key): Table {
    match FireAt(experts, k, Reconcile(Nvme))
    case Some(table) => table
    case None => experts
  }

  /** Sending one expert back changes nothing for the others. */
  lemma {:induction false} ReconcileOthers(experts: Table, k: Key, keys: set<Key>)
    requires k !in keys
    ensures Reconcilable(FireOrSame(experts, k), keys) <==> Reconcilable(experts, keys)
    ensures FireAt(experts, k, Reconcile(Nvme)).Some? <==> Reconcilable(experts, {k})
  {
  }

  /** The greedy set is there and unique; its total never passes the limit, so
      the loop's subtraction never underflows. */
  lemma {:induction false} GreedyExists(candidates: seq<Key>, i: nat, resident: map<Key, Transfer>, maximum: nat)
    returns (kept: set<Key>)
    requires Ascending(candidates) && i <= |candidates|
    ensures IsGreedy(kept, resident, Members(candidates[..i]), maximum)
    ensures SumMap(Payloads(kept, resident)) <= maximum
    decreases i
  {
    if i == 0 {
      kept := {};
      assert Payloads(kept, resident) == map[];
    } else {
      var before := GreedyExists(candidates, i - 1, resident, maximum);
      var k := candidates[i - 1];
      var all, earlier := Members(candidates[..i]), Members(candidates[..i - 1]);
      assert candidates[..i] == candidates[..i - 1] + [k];
      assert forall m | 0 <= m < i - 1 :: candidates[m] < k;
      var total := SumMap(Payloads(before, resident));
      kept := if k in resident && total + resident[k].bytes <= maximum then before + {k} else before;
      forall bound | bound <= k
        ensures BytesBelow(kept, resident, bound) == BytesBelow(before, resident, bound)
      {
        assert Below(kept, bound) == Below(before, bound);
      }
      assert Below(before, k) == before;
      if k in kept {
        assert Payloads(kept, resident) == Payloads(before, resident)[k := resident[k].bytes];
        SumMapInsert(Payloads(before, resident), k, resident[k].bytes);
      }
    }
  }

  lemma {:induction false} GreedyUnique(a: set<Key>, b: set<Key>, resident: map<Key, Transfer>, candidates: set<Key>,
                                        maximum: nat, k: Key)
    requires IsGreedy(a, resident, candidates, maximum) && IsGreedy(b, resident, candidates, maximum)
    ensures k in a <==> k in b
    decreases k
  {
    if k in candidates && k in resident {
      forall j: Key | j < k
        ensures j in a <==> j in b
      {
        GreedyUnique(a, b, resident, candidates, maximum, j);
      }
      assert Below(a, k) == Below(b, k);
    }
  }

  /** After a speculative commit whose trim ran to its end, what is held for
      prefetched experts is the greedy choice and fits the limit. The trim
      aborts exactly when some other expert the greedy choice rejects is in
      use, loading, queued or being evicted. */
  lemma {:induction false} CommitBound(c: Config, s: State, w: nat, candidates: seq<Key>, kept: set<Key>)
    requires w < |s.workers| && s.workers[w].Readied? && s.workers[w].task < |s.tasks|
    requires var t := s.workers[w].task;
      && Speculative(s.tasks[t]) && Ascending(candidates)
      && (forall k :: k in candidates <==> k in s.prefetched + {s.tasks[t].request.Key()})
      && IsGreedy(kept, Store(s, t, s.workers[w].transfer), Members(candidates), c.maximumPrefetchBytes)
    ensures var t := s.workers[w].task;
      var own := s.tasks[t].request.Key();
      var resident := Store(s, t, s.workers[w].transfer);
      var rejected := RejectedIn(kept, resident, candidates);
      var s' := CommitWith(c, s, w, t, s.workers[w].transfer, candidates);
      && (s'.workers[w].Committed? <==> Reconcilable(s.experts, rejected - {own}))
      && (s'.workers[w].Committed? ==>
            && s'.prefetched == s.prefetched + {own} - rejected
            && Payloads(s'.prefetched, s'.resident) == Payloads(kept, resident)
            && PrefetchBytes(s') <= c.maximumPrefetchBytes)
  {
    var t := s.workers[w].task;
    var own := s.tasks[t].request.Key();
    var resident := Store(s, t, s.workers[w].transfer);
    TrimFromStart(s.experts, resident, s.prefetched + {own}, candidates, own, c.maximumPrefetchBytes, kept);
  }

  lemma {:induction false} TrimFromStart(experts: Table, resident: map<Key, Transfer>, prefetched: set<Key>,
                                         candidates: seq<Key>, own: Key, maximum: nat, kept: set<Key>)
    requires Ascending(candidates) && forall k :: k in candidates <==> k in prefetched
    requires IsGreedy(kept, resident, Members(candidates), maximum)
    ensures var rejected := RejectedIn(kept, resident, candidates);
      var trimmed := TrimFrom(experts, resident, prefetched, candidates, own, maximum, 0);
      && (trimmed.completed <==> Reconcilable(experts, rejected - {own}))
      && (trimmed.completed ==>
            && trimmed.prefetched == prefetched - rejected
            && Payloads(trimmed.prefetched, trimmed.resident) == Payloads(kept, resident)
            && SumMap(Payloads(kept, resident)) <= maximum)
  {
    hide TrimFrom;
    if |candidates| > 0 {
      assert Below(kept, candidates[0]) == {} by {
        forall j | j in kept ensures j >= candidates[0] {
          var m :| 0 <= m < |candidates| && candidates[m] == j;
        }
      }
      assert Payloads({}, resident) == map[];
    }
    TrimFollowsGreedy(experts, resident, prefetched, candidates, own, maximum, 0, kept);
    GreedyFits(candidates, resident, maximum, kept);
    RejectedLeavesKept(prefetched, resident, candidates, kept);
  }

  lemma {:induction false} RejectedLeavesKept(prefetched: set<Key>, resident: map<Key, Transfer>, candidates: seq<Key>,
                                              kept: set<Key>)
    requires forall k :: k in candidates <==> k in prefetched
    requires kept <= Members(candidates)
    ensures var rejected := RejectedIn(kept, resident, candidates);
      Payloads(prefetched - rejected, resident - rejected) == Payloads(kept, resident)
  {
    var rejected := RejectedIn(kept, resident, candidates);
    forall k | k in prefetched && k in resident && k !in kept
      ensures k in rejected
    {
    }
  }

  lemma {:induction false} GreedyFits(candidates: seq<Key>, resident: map<Key, Transfer>, maximum: nat, kept: set<Key>)
    requires Ascending(candidates) && IsGreedy(kept, resident, Members(candidates), maximum)
    ensures SumMap(Payloads(kept, resident)) <= maximum
  {
    var g := GreedyExists(candidates, |candidates|, resident, maximum);
    assert candidates[..|candidates|] == candidates;
    forall k: Key ensures k in g <==> k in kept {
      GreedyUnique(g, kept, resident, Members(candidates), maximum, k);
    }
    assert g == kept;
  }

  // ---- which steps can raise the total ----

  lemma {:induction false} ShrinkingPrefetch(s: State, s': State)
    requires s'.prefetched <= s.prefetched
    requires s'.resident.Keys <= s.resident.Keys && forall k | k in s'.resident :: s'.resident[k] == s.resident[k]
    ensures PrefetchBytes(s') <= PrefetchBytes(s)
  {
    SumMapMonotone(Payloads(s'.prefetched, s'.resident), Payloads(s.prefetched, s.resident));
  }

  lemma {:induction false} ExpireShrinks(s: State, layer: Id32, order: seq<Key>)
    ensures var s' := ExpireFrom(s, layer, order).0;
      && s'.prefetched <= s.prefetched && s'.resident.Keys <= s.resident.Keys
      && forall k | k in s'.resident :: s'.resident[k] == s.resident[k]
    decreases |order|
  {
    if order != [] {
      if KeyLayer(order[0]) >= layer {
        ExpireShrinks(s, layer, order[1..]);
      } else if FireAt(s.experts, order[0], Reconcile(Nvme)).Some? {
        var next := s.(resident := s.resident - {order[0]},
                       experts := FireAt(s.experts, order[0], Reconcile(Nvme)).value,
                       prefetched := s.prefetched - {order[0]});
        ExpireShrinks(next, layer, order[1..]);
      }
    }
  }

  /** Every client step except a scheduling call can only lower the total. */
  lemma {:induction false} ClientsNeverRaise(c: Config, s: State, step: Step, s': State)
    requires !IsWorkerStep(step) && !step.ScheduleStep? && ClientNext(c, s, step, s')
    ensures PrefetchBytes(s') <= PrefetchBytes(s)
  {
    if step.ExpireStep? {
      ExpireShrinks(s, step.layer, step.order);
    }
    ShrinkingPrefetch(s, s');
  }

  /** A scheduling call raises the total exactly when it is a prefetch that
      finds its expert already in place: then a payload that was held for
      other reasons counts as prefetched from now on, and nothing is trimmed. */
  lemma {:induction false} ScheduleAccounting(c: Config, s: State, r: ScheduleRequest, callback: Option<Callback>)
    requires PendingOk(s)
    ensures var (s', outcome) := Schedule(c, s, r, callback);
      var k := r.Key();
      if outcome == ReadyNow && r.priority == PredictedNextLayer then
        PrefetchBytes(s') ==
          PrefetchBytes(s) + if k in s.resident && k !in s.prefetched then s.resident[k].bytes else 0
      else PrefetchBytes(s') <= PrefetchBytes(s)
  {
    var (s', outcome) := Schedule(c, s, r, callback);
    var k := r.Key();
    if outcome == ReadyNow && r.priority == PredictedNextLayer {
      if k in s.resident && k !in s.prefetched {
        assert Payloads(s'.prefetched, s'.resident) == Payloads(s.prefetched, s.resident)[k := s.resident[k].bytes];
        SumMapInsert(Payloads(s.prefetched, s.resident), k, s.resident[k].bytes);
      } else {
        assert Payloads(s'.prefetched, s'.resident) == Payloads(s.prefetched, s.resident);
      }
    } else {
      ScheduleShrinks(c, s, r, callback);
      ShrinkingPrefetch(s, s');
    }
  }

  lemma {:induction false} ScheduleShrinks(c: Config, s: State, r: ScheduleRequest, callback: Option<Callback>)
    requires PendingOk(s)
    requires !(Schedule(c, s, r, callback).1 == ReadyNow && r.priority == PredictedNextLayer)
    ensures Schedule(c, s, r, callback).0.resident == s.resident
    ensures Schedule(c, s, r, callback).0.prefetched <= s.prefetched
  {
    hide MakeKey, FireAt, Open, AlreadyThere, JoinedTask, Upgrades, NewTask, Join, Consume, Enqueue;
    if !s.stopping && r.Key() in s.experts {
      ConsumeShrinks(c, s, r);
      var s1 := Consume(c, s, r);
      if r.Key() in s.pending {
        JoinKeepsPayloads(s1, s.pending[r.Key()], r, callback);
      }
      forall table: Table
        ensures var e := Enqueue(s1, table, r, callback); e.resident == s1.resident && e.prefetched == s1.prefetched
      {
        EnqueueKeepsPayloads(s1, table, r, callback);
      }
    }
  }

  lemma {:induction false} ConsumeShrinks(c: Config, s: State, r: ScheduleRequest)
    requires PendingOk(s) && r.Key() in s.experts
    ensures |Consume(c, s, r).tasks| == |s.tasks|
    ensures Consume(c, s, r).resident == s.resident && Consume(c, s, r).prefetched <= s.prefetched
  {
    hide MakeKey;
  }

  lemma {:induction false} JoinKeepsPayloads(s: State, t: TaskId, r: ScheduleRequest, callback: Option<Callback>)
    requires t < |s.tasks|
    ensures Join(s, t, r, callback).resident == s.resident && Join(s, t, r, callback).prefetched == s.prefetched
  {
  }

  lemma {:induction false} EnqueueKeepsPayloads(s: State, table: Table, r: ScheduleRequest, callback: Option<Callback>)
    ensures Enqueue(s, table, r, callback).resident == s.resident
    ensures Enqueue(s, table, r, callback).prefetched == s.prefetched
  {
  }

  /** A worker's step moves the prefetched payloads only by a commit. */
  lemma {:induction false} WorkersMovePayloadsByCommit(c: Config, s: State, step: Step, s': State)
    requires IsWorkerStep(step) && WorkerNext(c, s, step, s') && !step.CommitStep?
    ensures s'.resident == s.resident && s'.prefetched == s.prefetched
  {
  }

  // ---- runs that show the limits ----

  lemma {:induction false} ReachRegister(c: Config, s: State, k: Key)
    requires Reachable(c, 1, s) && k !in s.experts
    ensures Reachable(c, 1, s.(experts := s.experts[k := ExpertState(Nvme, Nvme, Ready, 0)]))
  {
    hide Reachable, WorkerNext;
    ReachableNext(c, 1, s, RegisterStep(k, Nvme), s.(experts := s.experts[k := ExpertState(Nvme, Nvme, Ready, 0)]));
  }

  lemma {:induction false} ReachSchedule(c: Config, s: State, r: ScheduleRequest)
    requires Reachable(c, 1, s) && PendingOk(s)
    ensures Reachable(c, 1, Schedule(c, s, r, None).0)
  {
    hide Reachable, WorkerNext, Schedule;
    ReachableNext(c, 1, s, ScheduleStep(r, None), Schedule(c, s, r, None).0);
  }

  lemma {:induction false} ReachAcquire(c: Config, s: State, k: Key)
    requires Reachable(c, 1, s)
    ensures Reachable(c, 1, FireOrKeep(s, k, Acquire))
  {
    hide Reachable, WorkerNext, FireOrKeep;
    ReachableNext(c, 1, s, AcquireStep(k), FireOrKeep(s, k, Acquire));
  }

  lemma {:induction false} ReachCommit(c: Config, s: State, t: TaskId, transfer: Transfer, order: seq<Key>)
    requires Reachable(c, 1, s) && t < |s.tasks| && s.workers == [Readied(t, transfer)]
    requires Ascending(order) && forall k :: k in order <==> k in s.prefetched + {s.tasks[t].request.Key()}
    ensures Reachable(c, 1, CommitWith(c, s, 0, t, transfer, order))
  {
    hide Reachable, ClientNext, CommitWith;
    ReachableNext(c, 1, s, CommitStep(0, order), CommitWith(c, s, 0, t, transfer, order));
  }

  lemma {:induction false} ReachComplete(c: Config, s: State, t: TaskId)
    requires Reachable(c, 1, s) && t < |s.tasks| && s.workers == [Committed(t)]
    ensures Reachable(c, 1, Complete(s, 0, t, true))
  {
    hide Reachable, ClientNext, Complete;
    ReachableNext(c, 1, s, CompleteStep(0), Complete(s, 0, t, true));
  }

  lemma {:induction false} ReachDeliver(c: Config, s: State, t: TaskId)
    requires Reachable(c, 1, s) && t < |s.tasks| && s.workers == [Delivering(t, true)]
    ensures Reachable(c, 1, Deliver(s, 0, t, true))
  {
    hide Reachable, ClientNext, Deliver;
    ReachableNext(c, 1, s, DeliverStep(0), Deliver(s, 0, t, true));
  }

  /** A cleared load walks through its transfer. */
  lemma {:induction false} WalkLoad(c: Config, s: State, t: TaskId, transfer: Transfer) returns (s': State)
    requires Reachable(c, 1, s)
    requires t < |s.tasks| && s.workers == [Cleared(t)]
    requires var r := s.tasks[t].request;
      !r.eviction && r.destination != Nvme && r.Key() in s.experts && s.experts[r.Key()].state == Queued
    ensures Reachable(c, 1, s')
    ensures var r := s.tasks[t].request;
      s' == s.(workers := [Readied(t, transfer)],
               experts := s.experts[r.Key() :=
                 s.experts[r.Key()].(currentLocation := r.destination, targetLocation := r.destination, state := Ready)])
  {
    hide Reachable;
    var s1 := BeginTransfer(s, 0, t).value;
    ReachableNext(c, 1, s, BeginTransferStep(0), s1);
    var s2 := TakeAnswer(s1, 0, t, Completed(transfer));
    ReachableNext(c, 1, s1, AnswerStep(0, Completed(transfer)), s2);
    s' := FinishTransfer(s2, 0, t, transfer);
    ReachableNext(c, 1, s2, MarkReadyStep(0), s');
  }

  /** Register one expert and open a load for it. */
  lemma {:induction false} OpenOne(c: Config, r: ScheduleRequest) returns (s': State)
    requires !r.eviction && r.destination == Vram
    ensures Reachable(c, 1, s')
    ensures s' == Enqueue(Initial(1), map[r.Key() := ExpertState(Nvme, Vram, Queued, 0)], r, None)
  {
    hide Reachable;
    var k := r.Key();
    ReachableStart(c, 1);
    var s0 := Initial(1);
    var s1 := s0.(experts := map[k := ExpertState(Nvme, Nvme, Ready, 0)]);
    ReachRegister(c, s0, k);
    s' := Schedule(c, s1, r, None).0;
    assert Open(s1.experts, r).value == map[k := ExpertState(Nvme, Vram, Queued, 0)];
    ReachSchedule(c, s1, r);
  }

  lemma {:induction false} LoadOne(c: Config, r: ScheduleRequest, transfer: Transfer) returns (s': State)
    requires r.destination == Vram && r.priority == ActiveInference && !r.eviction
    ensures Reachable(c, 1, s') && !s'.stopping
    ensures s'.resident == map[r.Key() := transfer] && s'.prefetched == {} && s'.pending == map[]
    ensures s'.experts == map[r.Key() := ExpertState(Vram, Vram, Ready, 0)]
  {
    hide Reachable, Next;
    var k := r.Key();
    var s2 := OpenOne(c, r);
    assert s2.tasks == [NewTask(r, None, 0)] && s2.queue == {Newest(0, s2.tasks[0])};
    var s4 := PopAndClear(c, s2, 0);
    var s5 := WalkLoad(c, s4, 0, transfer);
    var s6 := CommitWith(c, s5, 0, 0, transfer, [k]);
    ReachCommit(c, s5, 0, transfer, [k]);
    s' := Complete(s6, 0, 0, true);
    ReachComplete(c, s6, 0);
    assert s'.pending == map[];
  }

  /** With one waiting task and an idle worker, the task is started and cleared. */
  lemma {:induction false} PopAndClear(c: Config, s: State, t: TaskId) returns (s': State)
    requires Reachable(c, 1, s)
    requires t < |s.tasks| && !s.tasks[t].cancelled && !s.tasks[t].started && !s.tasks[t].completed
    requires s.workers == [Idle] && s.queue == {Newest(t, s.tasks[t])}
    ensures Reachable(c, 1, s')
    ensures s' == s.(queue := {}, tasks := s.tasks[t := s.tasks[t].(started := true, owner := 0)],
                     workers := [Cleared(t)])
  {
    hide Reachable;
    var e := Newest(t, s.tasks[t]);
    var live := set x | x in s.queue && Live(s, x);
    assert live == {e};
    assert IsBest(e, live);
    var s1 := s.(queue := (set x | x in s.queue && Better(e, x)),
                 tasks := s.tasks[e.task := s.tasks[e.task].(started := true, owner := 0)],
                 workers := s.workers[0 := Popped(e.task)]);
    assert PopResult(s, 0, s1);
    assert s1.queue == {};
    ReachableNext(c, 1, s, PopStep(0), s1);
    s' := CheckCancelled(s1, 0, t);
    ReachableNext(c, 1, s1, CheckStep(0), s');
  }

  function Prefetch(expert: Id32): ScheduleRequest {
    ScheduleRequest(0, expert, Vram, PredictedNextLayer, false, 1.0)
  }

  /** A prefetched expert of 8 bytes, taken into use by a client. */
  lemma {:induction false} PrefetchAndUse(c: Config, expert: Id32) returns (s': State)
    requires c.maximumPrefetchBytes == 10
    ensures Reachable(c, 1, s') && !s'.stopping && s'.pending == map[] && s'.queue == {} && s'.workers == [Idle]
    ensures s'.resident == map[expert := Transfer(8)] && s'.prefetched == {expert}
    ensures s'.experts == map[expert := ExpertState(Vram, Vram, InUse, 1)]
  {
    hide Reachable;
    var r := Prefetch(expert);
    var s2 := OpenOne(c, r);
    assert s2.tasks == [NewTask(r, None, 0)] && s2.queue == {Newest(0, s2.tasks[0])};
    var s4 := PopAndClear(c, s2, 0);
    var s5 := WalkLoad(c, s4, 0, Transfer(8));
    var s8 := FinishAlone(c, s5, expert);
    s' := FireOrKeep(s8, expert, Acquire);
    ReachAcquire(c, s8, expert);
  }

  /** The only task commits a payload that fits, and is answered. */
  lemma {:induction false} FinishAlone(c: Config, s: State, expert: Id32) returns (s': State)
    requires c.maximumPrefetchBytes == 10 && Reachable(c, 1, s)
    requires s.workers == [Readied(0, Transfer(8))] && s.pending == map[expert := 0]
    requires s.resident == map[] && s.prefetched == {}
    requires |s.tasks| == 1 && s.tasks[0].callbacks == [] && s.tasks[0].ran == []
    requires s.tasks[0].request == Prefetch(expert) && Speculative(s.tasks[0])
    ensures Reachable(c, 1, s')
    ensures s' == s.(resident := map[expert := Transfer(8)], prefetched := {expert}, pending := map[],
                     tasks := s'.tasks, workers := [Idle])
  {
    hide Reachable, Next;
    var order: seq<Key> := [expert];
    var s6 := CommitWith(c, s, 0, 0, Transfer(8), order);
    assert order[1..] == [];
    assert Store(s, 0, Transfer(8)) == map[expert := Transfer(8)] && s.prefetched + {expert} == {expert};
    TrimKeepsOne(s.experts, map[expert := Transfer(8)], {expert}, order, expert, 10, 0);
    ReachCommit(c, s, 0, Transfer(8), order);
    assert s6.resident == map[expert := Transfer(8)] && s6.prefetched == {expert};
    var s7 := Complete(s6, 0, 0, true);
    ReachComplete(c, s6, 0);
    assert s7.pending == map[];
    s' := Deliver(s7, 0, 0, true);
    ReachDeliver(c, s7, 0);
  }

  /** A step that takes an expert from in use to failed. */
  ghost predicate FailsWhileInUse(c: Config, s: State, s': State, k: Key) {
    && k in s.experts && s.experts[k].state == InUse
    && Next(c, s, MarkFailedStep(0), s')
    && k in s'.experts && s'.experts[k].state == Failed
  }

  /** The exception of InUseIsKept happens: expert 2 is prefetched and in use;
      expert 1 is prefetched, becomes ready and is taken into use before its
      commit; the trim then rejects expert 2, cannot send it back, and the
      failure is charged to expert 1 while a client uses it. */
  lemma {:induction false} ExpertInUseCanBeFailed(c: Config)
    requires c == Config(false, 10)
    ensures exists s, s' | Reachable(c, 1, s) :: FailsWhileInUse(c, s, s', 1)
  {
    hide Reachable, Next;
    var s0 := PrefetchAndUse(c, 2);
    var s1 := s0.(experts := s0.experts[1 := ExpertState(Nvme, Nvme, Ready, 0)]);
    ReachRegister(c, s0, 1);
    var r := Prefetch(1);
    var t := |s1.tasks|;
    var s2 := Schedule(c, s1, r, None).0;
    assert s2.tasks[t] == NewTask(r, None, s1.nextSequence);
    ReachSchedule(c, s1, r);
    assert s2.queue == {Newest(t, s2.tasks[t])};
    var s3 := PopAndClear(c, s2, t);
    var s4 := WalkLoad(c, s3, t, Transfer(8));
    var s5 := FireOrKeep(s4, 1, Acquire);
    ReachAcquire(c, s4, 1);
    assert s5.experts[1].state == InUse && s5.experts[2].state == InUse;
    AbortedCommit(c, s5, t);
  }

  lemma {:induction false} AbortedCommit(c: Config, s: State, t: TaskId)
    requires c.maximumPrefetchBytes == 10 && Reachable(c, 1, s)
    requires t < |s.tasks| && Speculative(s.tasks[t]) && s.tasks[t].request == Prefetch(1)
    requires s.workers == [Readied(t, Transfer(8))]
    requires s.resident == map[2 := Transfer(8)] && s.prefetched == {2}
    requires 1 in s.experts && s.experts[1].state == InUse
    requires 2 in s.experts && s.experts[2].state == InUse
    ensures exists s6, s' | Reachable(c, 1, s6) :: FailsWhileInUse(c, s6, s', 1)
  {
    hide Reachable, ClientNext;
    var order: seq<Key> := [1, 2];
    var s6 := CommitWith(c, s, 0, t, Transfer(8), order);
    assert order[1..] == [2];
    TrimKeepsOne(s.experts, s.resident[1 := Transfer(8)], {1, 2}, order, 1, 10, 0);
    TrimDrops(s.experts, s.resident[1 := Transfer(8)], {1, 2}, [2], 1, 10, 8);
    assert s6.workers == [Failing(t, CommitAborted)];
    ReachCommit(c, s, t, Transfer(8), order);
    var table := FireAt(s6.experts, 1, MarkFailed).value;
    var s' := s6.(experts := table, workers := [MarkedFailed(t)]);
    assert FailsWhileInUse(c, s6, s', 1);
  }
}
