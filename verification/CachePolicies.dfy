/**
The eviction policies. Each keeps clocks and counters; each must choose the
victim that the whole trace of events since construction singles out, in
whatever order the candidates are offered.
 */
module AccessTraces {
  import opened Wrappers
  import opened Tallies

  type ExpertId = nat

  /** What a policy is told. */
  datatype Event =
    | Accessed(id: ExpertId)
    | Arrived(id: ExpertId)
    | Evicted(id: ExpertId)
    | LayerHint(id: ExpertId, value: real)
    | ConfidenceHint(id: ExpertId, value: real)

  function Without(order: seq<ExpertId>, id: ExpertId): seq<ExpertId> {
    if order == [] then []
    else
      var n := |order| - 1;
      Without(order[..n], id) + if order[n] == id then [] else [order[n]]
  }

  /** The recency list, least recent first: an access moves an expert to the
      end; an arrival adds an expert that was never seen. */
  function Recency(log: seq<Event>): seq<ExpertId> {
    if log == [] then []
    else
      var before := Recency(log[..|log| - 1]);
      match log[|log| - 1]
      case Accessed(id) => Without(before, id) + [id]
      case Arrived(id) => if id in before then before else before + [id]
      case _ => before
  }

  ghost predicate Before(order: seq<ExpertId>, a: ExpertId, b: ExpertId) {
    exists i, j :: 0 <= i < j < |order| && order[i] == a && order[j] == b
  }

  /** Experts never seen come first, by identifier; then the recency list. */
  ghost predicate Older(order: seq<ExpertId>, a: ExpertId, b: ExpertId) {
    if a !in order then b in order || a < b else Before(order, a, b)
  }

  function Eligible(candidates: seq<ExpertId>, excluded: set<ExpertId>): set<ExpertId> {
    set id | id in candidates && id !in excluded
  }

  // ---- clocks ----

  /** Ticks of the logical clock: one per access and one per first sight. */
  function Clock(log: seq<Event>): nat
    decreases |log|, 0
  {
    if log == [] then 0
    else
      var before := log[..|log| - 1];
      match log[|log| - 1]
      case Accessed(_) => Clock(before) + 1
      case Arrived(id) => Clock(before) + if TouchedAt(before, id) == 0 then 1 else 0
      case _ => Clock(before)
  }

  /** The tick of an expert's last access, or of its first arrival; 0 for never. */
  function TouchedAt(log: seq<Event>, id: ExpertId): nat
    decreases |log|, 1
  {
    if log == [] then 0
    else
      var before := TouchedAt(log[..|log| - 1], id);
      match log[|log| - 1]
      case Accessed(x) => if x == id then Clock(log) else before
      case Arrived(x) => if x == id && before == 0 then Clock(log) else before
      case _ => before
  }

  /** An increasing list of clock readings. */
  ghost predicate Increasing(order: seq<ExpertId>, log: seq<Event>) {
    forall i, j | 0 <= i < j < |order| :: TouchedAt(log, order[i]) < TouchedAt(log, order[j])
  }

  lemma {:induction false} WithoutMeans(order: seq<ExpertId>, id: ExpertId, x: ExpertId)
    ensures x in Without(order, id) <==> x in order && x != id
  {
    if order != [] {
      WithoutMeans(order[..|order| - 1], id, x);
      assert order == order[..|order| - 1] + [order[|order| - 1]];
    }
  }

  lemma {:induction false} WithoutIncreasing(order: seq<ExpertId>, id: ExpertId, log: seq<Event>)
    requires Increasing(order, log)
    ensures Increasing(Without(order, id), log)
  {
    if order != [] {
      var n := |order| - 1;
      WithoutIncreasing(order[..n], id, log);
      forall x | x in Without(order[..n], id) ensures TouchedAt(log, x) < TouchedAt(log, order[n]) {
        WithoutMeans(order[..n], id, x);
      }
    }
  }

  lemma {:induction false} NeverTouched(x: ExpertId)
    ensures TouchedAt([], x) == 0
  {
  }

  /** What the last event does to the clock and to one reading. */
  ghost predicate TouchedStep(log: seq<Event>, x: ExpertId)
    requires log != []
  {
    var before, e := log[..|log| - 1], log[|log| - 1];
    var first := e.Arrived? && TouchedAt(before, e.id) == 0;
    && Clock(log) == Clock(before) + (if e.Accessed? || first then 1 else 0)
    && TouchedAt(log, x) == if e.id == x && (e.Accessed? || first) then Clock(log) else TouchedAt(before, x)
  }

  lemma {:induction false} TouchedUnfolds(log: seq<Event>, x: ExpertId)
    requires log != []
    ensures TouchedStep(log, x)
  {
  }

  /** An expert touched just now goes to the end of a list of all the others. */
  lemma {:induction false} TimedPush(order: seq<ExpertId>, log: seq<Event>, before: seq<Event>, id: ExpertId)
    requires Clock(log) == Clock(before) + 1
    requires forall x: ExpertId :: TouchedAt(log, x) == if x == id then Clock(log) else TouchedAt(before, x)
    requires forall x: ExpertId :: x in order <==> x != id && TouchedAt(before, x) > 0
    requires forall x: ExpertId :: TouchedAt(before, x) <= Clock(before)
    requires Increasing(order, before)
    ensures forall x: ExpertId :: x in order + [id] <==> TouchedAt(log, x) > 0
    ensures forall x: ExpertId :: TouchedAt(log, x) <= Clock(log)
    ensures Increasing(order + [id], log)
  {
    hide TouchedAt, Clock;
    forall x: ExpertId ensures x in order + [id] <==> x in order || x == id {
      assert (order + [id])[|order|] == id;
    }
  }

  /** The list holds exactly the experts seen, each once, in the order of their
      clock readings. */
  lemma {:induction false} RecencyByTime(log: seq<Event>)
    ensures forall id: ExpertId :: id in Recency(log) <==> TouchedAt(log, id) > 0
    ensures forall id: ExpertId :: TouchedAt(log, id) <= Clock(log)
    ensures Increasing(Recency(log), log)
  {
    hide Without, TouchedAt, Clock, Increasing;
    if log == [] {
      forall x: ExpertId ensures TouchedAt(log, x) == 0 {
        NeverTouched(x);
      }
      NothingIncreases(log);
    } else {
      var before := log[..|log| - 1];
      RecencyByTime(before);
      RecencyStep(log, before);
    }
  }

  lemma {:induction false} NothingIncreases(log: seq<Event>)
    ensures Increasing([], log)
  {
  }

  lemma {:induction false} RecencyStep(log: seq<Event>, before: seq<Event>)
    requires log != [] && before == log[..|log| - 1]
    requires forall id: ExpertId :: id in Recency(before) <==> TouchedAt(before, id) > 0
    requires forall id: ExpertId :: TouchedAt(before, id) <= Clock(before)
    requires Increasing(Recency(before), before)
    ensures forall id: ExpertId :: id in Recency(log) <==> TouchedAt(log, id) > 0
    ensures forall id: ExpertId :: TouchedAt(log, id) <= Clock(log)
    ensures Increasing(Recency(log), log)
  {
    hide Without, TouchedAt, Clock;
    var order, e := Recency(before), log[|log| - 1];
    var touched := e.Accessed? || (e.Arrived? && TouchedAt(before, e.id) == 0);
    TouchedUnfolds(log, e.id);
    forall x: ExpertId
      ensures TouchedAt(log, x) == if e.id == x && touched then Clock(log) else TouchedAt(before, x)
    {
      TouchedUnfolds(log, x);
    }
    if touched {
      hide Increasing;
      var others := Without(order, e.id);
      forall x: ExpertId ensures x in others <==> x in order && x != e.id {
        WithoutMeans(order, e.id, x);
      }
      WithoutIncreasing(order, e.id, before);
      if e.Arrived? {
        TimedPush(order, log, before, e.id);
      } else {
        TimedPush(others, log, before, e.id);
      }
    }
  }

  /** One expert is older than another exactly when its clock reading is
      smaller, or neither was ever seen and its identifier is smaller. */
  lemma {:induction false} OlderByTime(log: seq<Event>, a: ExpertId, b: ExpertId)
    requires a != b
    ensures Older(Recency(log), a, b) <==>
      (TouchedAt(log, a) < TouchedAt(log, b) || (TouchedAt(log, a) == TouchedAt(log, b) && a < b))
  {
    RecencyByTime(log);
    var order := Recency(log);
    if a in order && b in order {
      var i :| 0 <= i < |order| && order[i] == a;
      var j :| 0 <= j < |order| && order[j] == b;
      assert i < j ==> Before(order, a, b);
    }
  }

  /** Once an expert is seen, an access to another makes it the older of the
      two until it is accessed itself, whatever else happens. */
  lemma {:induction false} AccessedLater(log: seq<Event>, i: nat, a: ExpertId, b: ExpertId)
    requires i < |log| && log[i] == Accessed(b) && a != b
    requires a in Recency(log[..i])
    requires Accessed(a) !in log[i..]
    ensures Older(Recency(log), a, b)
    ensures TouchedAt(log, a) > 0
  {
    hide Recency, TouchedAt, Clock, Older;
    var n := |log| - 1;
    TouchedUnfolds(log, a);
    TouchedUnfolds(log, b);
    RecencyByTime(log[..i]);
    OlderByTime(log, a, b);
    if i == n {
      assert log[..i] == log[..n];
    } else {
      assert log[..n][..i] == log[..i] && log[i..][n - i] == log[n];
      assert log[..n][i..] == log[i..][..n - i];
      AccessedLater(log[..n], i, a, b);
      OlderByTime(log[..n], a, b);
      RecencyByTime(log[..n]);
    }
  }

  /** Age is a strict total order, so the oldest of a set is unique. */
  lemma {:induction false} OlderTotal(log: seq<Event>, a: ExpertId, b: ExpertId)
    requires a != b
    ensures Older(Recency(log), a, b) <==> !Older(Recency(log), b, a)
  {
    OlderByTime(log, a, b);
    OlderByTime(log, b, a);
  }

  // ---- counts ----

  function Accesses(log: seq<Event>, id: ExpertId): nat {
    if log == [] then 0
    else Accesses(log[..|log| - 1], id) + if log[|log| - 1] == Accessed(id) then 1 else 0
  }

  /** The largest access count of any expert. */
  function MostAccesses(log: seq<Event>): nat {
    if log == [] then 0
    else
      var before := MostAccesses(log[..|log| - 1]);
      match log[|log| - 1]
      case Accessed(id) => if Accesses(log, id) > before then Accesses(log, id) else before
      case _ => before
  }

  lemma {:induction false} MostAccessesIsMaximum(log: seq<Event>)
    ensures forall id: ExpertId :: Accesses(log, id) <= MostAccesses(log)
    ensures MostAccesses(log) > 0 ==> exists id: ExpertId :: Accesses(log, id) == MostAccesses(log)
  {
    if log != [] {
      var before := log[..|log| - 1];
      MostAccessesIsMaximum(before);
      var last := log[|log| - 1];
      forall id: ExpertId ensures Accesses(log, id) <= MostAccesses(log) {
        assert Accesses(before, id) <= MostAccesses(before);
      }
      if MostAccesses(log) > MostAccesses(before) {
        assert Accesses(log, last.id) == MostAccesses(log);
      } else if MostAccesses(log) > 0 {
        var id: ExpertId :| Accesses(before, id) == MostAccesses(before);
        assert Accesses(log, id) == MostAccesses(log);
      }
    }
  }

  /** An expert that was accessed has been seen. */
  lemma {:induction false} AccessedIsTouched(log: seq<Event>, id: ExpertId)
    ensures Accesses(log, id) > 0 ==> TouchedAt(log, id) > 0
  {
    if log != [] {
      AccessedIsTouched(log[..|log| - 1], id);
    }
  }

  // ---- what a policy stores ----

  ghost predicate ClockAgrees(log: seq<Event>, clock: nat, lastAccess: map<ExpertId, nat>) {
    && clock == Clock(log)
    && (forall id: ExpertId :: Get(lastAccess, id) == TouchedAt(log, id))
    && (forall id: ExpertId :: id in lastAccess <==> TouchedAt(log, id) > 0)
  }

  ghost predicate CountAgrees(log: seq<Event>, frequency: map<ExpertId, nat>) {
    forall id: ExpertId :: Get(frequency, id) == Accesses(log, id)
  }

  /** The clock field and the stamps after an access. */
  lemma {:induction false} ClockOnAccess(log: seq<Event>, clock: nat, lastAccess: map<ExpertId, nat>, id: ExpertId)
    requires ClockAgrees(log, clock, lastAccess)
    ensures ClockAgrees(log + [Accessed(id)], clock + 1, lastAccess[id := clock + 1])
  {
    assert (log + [Accessed(id)])[..|log|] == log;
  }

  lemma {:induction false} ClockOnArrival(log: seq<Event>, clock: nat, lastAccess: map<ExpertId, nat>, id: ExpertId)
    requires ClockAgrees(log, clock, lastAccess)
    ensures
      if id in lastAccess then ClockAgrees(log + [Arrived(id)], clock, lastAccess)
      else ClockAgrees(log + [Arrived(id)], clock + 1, lastAccess[id := clock + 1])
  {
    assert (log + [Arrived(id)])[..|log|] == log;
  }

  lemma {:induction false} ClockOnOther(log: seq<Event>, clock: nat, lastAccess: map<ExpertId, nat>, e: Event)
    requires ClockAgrees(log, clock, lastAccess)
    requires !e.Accessed? && !e.Arrived?
    ensures ClockAgrees(log + [e], clock, lastAccess)
  {
    assert (log + [e])[..|log|] == log;
  }

  lemma {:induction false} CountOnAccess(log: seq<Event>, frequency: map<ExpertId, nat>, id: ExpertId)
    requires CountAgrees(log, frequency)
    ensures CountAgrees(log + [Accessed(id)], Bump(frequency, id))
  {
    assert (log + [Accessed(id)])[..|log|] == log;
  }

  lemma {:induction false} CountOnOther(log: seq<Event>, frequency: map<ExpertId, nat>, e: Event)
    requires CountAgrees(log, frequency) && !e.Accessed?
    ensures CountAgrees(log + [e], frequency)
    ensures e.id !in frequency ==> CountAgrees(log + [e], frequency[e.id := 0])
  {
    assert (log + [e])[..|log|] == log;
    assert Get(frequency, e.id) == Accesses(log, e.id);
  }

  /** Strictly smaller in a lexicographic key whose last part is the identifier. */
  predicate Lower(key: nat, id: ExpertId, otherKey: nat, other: ExpertId) {
    key < otherKey || (key == otherKey && id < other)
  }
}

/** Least recently used (src/experts/expert_cache/lru_cache_policy.cpp). */
module LruPolicy {
  import opened Wrappers
  import opened Tallies
  import opened AccessTraces

  ghost predicate IsVictim(log: seq<Event>, eligible: set<ExpertId>, victim: Option<ExpertId>) {
    && (victim.None? <==> eligible == {})
    && (victim.Some? ==> victim.value in eligible)
    && (victim.Some? ==> forall u | u in eligible && u != victim.value :: Older(Recency(log), victim.value, u))
  }

  lemma {:induction false} VictimUnique(log: seq<Event>, eligible: set<ExpertId>, v: Option<ExpertId>,
                                        w: Option<ExpertId>)
    requires IsVictim(log, eligible, v) && IsVictim(log, eligible, w)
    ensures v == w
  {
    if v.Some? && w.Some? && v != w {
      OlderTotal(log, v.value, w.value);
    }
  }

  class LruCachePolicy {
    var clock: nat
    var lastAccess: map<ExpertId, nat>
    /** Every event since construction. */
    ghost var log: seq<Event>

    ghost predicate Valid()
      reads this
    {
      ClockAgrees(log, clock, lastAccess)
    }

    constructor ()
      ensures Valid() && log == []
    {
      clock, lastAccess, log := 0, map[], [];
    }

    method OnAccess(id: ExpertId)
      requires Valid()
      modifies this
      ensures Valid() && log == old(log) + [Accessed(id)]
    {
      ClockOnAccess(log, clock, lastAccess, id);
      clock := clock + 1;
      lastAccess := lastAccess[id := clock];
      log := log + [Accessed(id)];
    }

    method OnResident(id: ExpertId)
      requires Valid()
      modifies this
      ensures Valid() && log == old(log) + [Arrived(id)]
    {
      ClockOnArrival(log, clock, lastAccess, id);
      if id !in lastAccess {
        clock := clock + 1;
        lastAccess := lastAccess[id := clock];
      }
      log := log + [Arrived(id)];
    }

    /** Evictions are not recorded. */
    method OnEvict(id: ExpertId)
      requires Valid()
      modifies this
      ensures Valid() && log == old(log) + [Evicted(id)]
      ensures clock == old(clock) && lastAccess == old(lastAccess)
    {
      ClockOnOther(log, clock, lastAccess, Evicted(id));
      log := log + [Evicted(id)];
    }

    /** The victim is the oldest eligible candidate on the whole trace. */
    method SelectVictim(candidates: seq<ExpertId>, excluded: set<ExpertId>) returns (victim: Option<ExpertId>)
      requires Valid()
      ensures IsVictim(log, Eligible(candidates, excluded), victim)
    {
      victim := None;
      var oldest := 0;
      for i := 0 to |candidates|
        invariant victim.None? ==> forall j | 0 <= j < i :: candidates[j] in excluded
        invariant victim.Some? ==> victim.value in candidates[..i] && victim.value !in excluded
        invariant victim.Some? ==> oldest == TouchedAt(log, victim.value)
        invariant victim.Some? ==> forall j | 0 <= j < i && candidates[j] !in excluded && candidates[j] != victim.value ::
          Lower(oldest, victim.value, TouchedAt(log, candidates[j]), candidates[j])
      {
        var id := candidates[i];
        if id !in excluded {
          var stamp := if id in lastAccess then lastAccess[id] else 0;
          assert stamp == Get(lastAccess, id);
          if victim.None? || stamp < oldest || (stamp == oldest && id < victim.value) {
            victim, oldest := Some(id), stamp;
          }
        }
      }
      if victim.Some? {
        forall u | u in Eligible(candidates, excluded) && u != victim.value
          ensures Older(Recency(log), victim.value, u)
        {
          OlderByTime(log, victim.value, u);
        }
        assert victim.value in Eligible(candidates, excluded);
      }
    }
  }
}

/** Least frequently used (src/cache/LFUPolicy.cpp). */
module LfuPolicy {
  import opened Wrappers
  import opened Tallies
  import opened AccessTraces

  /** Fewer accesses first; among equals the older one. */
  ghost predicate LessUsed(log: seq<Event>, a: ExpertId, b: ExpertId) {
    || Accesses(log, a) < Accesses(log, b)
    || (Accesses(log, a) == Accesses(log, b) && Older(Recency(log), a, b))
  }

  ghost predicate IsVictim(log: seq<Event>, eligible: set<ExpertId>, victim: Option<ExpertId>) {
    && (victim.None? <==> eligible == {})
    && (victim.Some? ==> victim.value in eligible)
    && (victim.Some? ==> forall u | u in eligible && u != victim.value :: LessUsed(log, victim.value, u))
  }

  lemma {:induction false} VictimUnique(log: seq<Event>, eligible: set<ExpertId>, v: Option<ExpertId>,
                                        w: Option<ExpertId>)
    requires IsVictim(log, eligible, v) && IsVictim(log, eligible, w)
    ensures v == w
  {
    if v.Some? && w.Some? && v != w {
      OlderTotal(log, v.value, w.value);
    }
  }

  class LfuCachePolicy {
    var clock: nat
    var frequency: map<ExpertId, nat>
    var lastAccess: map<ExpertId, nat>
    ghost var log: seq<Event>

    ghost predicate Valid()
      reads this
    {
      ClockAgrees(log, clock, lastAccess) && CountAgrees(log, frequency)
    }

    constructor ()
      ensures Valid() && log == []
    {
      clock, frequency, lastAccess, log := 0, map[], map[], [];
    }

    method OnAccess(id: ExpertId)
      requires Valid()
      modifies this
      ensures Valid() && log == old(log) + [Accessed(id)]
    {
      CountOnAccess(log, frequency, id);
      ClockOnAccess(log, clock, lastAccess, id);
      frequency := Bump(frequency, id);
      clock := clock + 1;
      lastAccess := lastAccess[id := clock];
      log := log + [Accessed(id)];
    }

    method OnResident(id: ExpertId)
      requires Valid()
      modifies this
      ensures Valid() && log == old(log) + [Arrived(id)]
    {
      CountOnOther(log, frequency, Arrived(id));
      ClockOnArrival(log, clock, lastAccess, id);
      if id !in frequency {
        frequency := frequency[id := 0];
      }
      if id !in lastAccess {
        clock := clock + 1;
        lastAccess := lastAccess[id := clock];
      }
      log := log + [Arrived(id)];
    }

    method OnEvict(id: ExpertId)
      requires Valid()
      modifies this
      ensures Valid() && log == old(log) + [Evicted(id)]
      ensures clock == old(clock) && lastAccess == old(lastAccess) && frequency == old(frequency)
    {
      ClockOnOther(log, clock, lastAccess, Evicted(id));
      CountOnOther(log, frequency, Evicted(id));
      log := log + [Evicted(id)];
    }

    /** The victim is the least used eligible candidate on the whole trace. */
    method SelectVictim(candidates: seq<ExpertId>, excluded: set<ExpertId>) returns (victim: Option<ExpertId>)
      requires Valid()
      ensures IsVictim(log, Eligible(candidates, excluded), victim)
    {
      victim := None;
      var minimumFrequency, oldest := 0, 0;
      for i := 0 to |candidates|
        invariant victim.None? ==> forall j | 0 <= j < i :: candidates[j] in excluded
        invariant victim.Some? ==> victim.value in candidates[..i] && victim.value !in excluded
        invariant victim.Some? ==> minimumFrequency == Accesses(log, victim.value)
        invariant victim.Some? ==> oldest == TouchedAt(log, victim.value)
        invariant victim.Some? ==> forall j | 0 <= j < i && candidates[j] !in excluded && candidates[j] != victim.value ::
          || minimumFrequency < Accesses(log, candidates[j])
          || (minimumFrequency == Accesses(log, candidates[j]) &&
              Lower(oldest, victim.value, TouchedAt(log, candidates[j]), candidates[j]))
      {
        var id := candidates[i];
        if id !in excluded {
          var used := if id in frequency then frequency[id] else 0;
          var recency := if id in lastAccess then lastAccess[id] else 0;
          assert used == Get(frequency, id) && recency == Get(lastAccess, id);
          if || victim.None?
             || used < minimumFrequency
             || (used == minimumFrequency && recency < oldest)
             || (used == minimumFrequency && recency == oldest && id < victim.value)
          {
            victim, minimumFrequency, oldest := Some(id), used, recency;
          }
        }
      }
      if victim.Some? {
        forall u | u in Eligible(candidates, excluded) && u != victim.value
          ensures LessUsed(log, victim.value, u)
        {
          OlderByTime(log, victim.value, u);
        }
        assert victim.value in Eligible(candidates, excluded);
      }
    }
  }
}

/** A blend of popularity, recency and hints (src/cache/HybridPolicy.cpp). The
    age-aware form decays popularity lazily. */
module HybridPolicy {
  import opened Wrappers
  import opened Tallies
  import opened AccessTraces

  /** What the source writes as 2 to the power of -1 / window. */
  ghost predicate HalvesOver(d: real, window: nat) {
    d > 0.0 && Pow(d, window) == 0.5
  }

  lemma {:induction false} PowBounds(d: real, n: nat)
    requires 0.0 < d
    ensures Pow(d, n) > 0.0
    ensures d <= 1.0 ==> Pow(d, n) <= 1.0
    ensures d >= 1.0 ==> Pow(d, n) >= 1.0
  {
    if n > 0 {
      PowBounds(d, n - 1);
      ProductBounds(d, Pow(d, n - 1));
    }
  }

  lemma {:induction false} ProductBounds(x: real, y: real)
    requires x >= 0.0 && y >= 0.0
    ensures Times(x, y) >= 0.0
    ensures x > 0.0 && y > 0.0 ==> Times(x, y) > 0.0
    ensures x <= 1.0 && y <= 1.0 ==> Times(x, y) <= 1.0
    ensures x >= 1.0 && y >= 1.0 ==> Times(x, y) >= 1.0
  {
    if x <= 1.0 && y <= 1.0 {
      assert x * y <= 1.0 * y;
    }
    if x >= 1.0 && y >= 1.0 {
      assert x * y >= 1.0 * y;
    }
  }

  lemma {:induction false} HalvingIsDecay(d: real, window: nat)
    requires HalvesOver(d, window)
    ensures d < 1.0
  {
    PowBounds(d, window);
  }

  /** One window of observations later every decayed quantity is half of what
      it was. */
  lemma {:induction false} OneWindowHalves(d: real, window: nat, age: nat)
    requires HalvesOver(d, window)
    ensures Pow(d, age + window) == 0.5 * Pow(d, age)
  {
    PowAdd(d, window, age);
  }

  // ---- what the trace says ----

  function Clamped(x: real): (r: real)
    ensures 0.0 <= r <= 1.0
    ensures 0.0 <= x <= 1.0 ==> r == x
  {
    if x < 0.0 then 0.0 else if x > 1.0 then 1.0 else x
  }

  lemma {:induction false} ClockGrows(log: seq<Event>)
    requires log != []
    ensures Clock(log[..|log| - 1]) <= Clock(log)
  {
  }

  /** Every access weighted by its age: d to the power of the ticks since. */
  function Popularity(log: seq<Event>, id: ExpertId, d: real, now: nat): real
    requires Clock(log) <= now
  {
    if log == [] then 0.0
    else
      Popularity(log[..|log| - 1], id, d, now)
      + if log[|log| - 1] == Accessed(id) then Pow(d, now - Clock(log)) else 0.0
  }

  lemma {:induction false} PopularityAges(log: seq<Event>, id: ExpertId, d: real, now: nat, later: nat)
    requires Clock(log) <= now <= later
    ensures Popularity(log, id, d, later) == Times(Pow(d, later - now), Popularity(log, id, d, now))
  {
    hide Times, Pow;
    TimesLaws(Pow(d, later - now), 0.0, 0.0, 0.0);
    if log != [] {
      var before := log[..|log| - 1];
      ClockGrows(log);
      PopularityAges(before, id, d, now, later);
      if log[|log| - 1] == Accessed(id) {
        PowAdd(d, later - now, now - Clock(log));
        assert later - now + (now - Clock(log)) == later - Clock(log);
        Distributes(Pow(d, later - now), Popularity(before, id, d, now), Pow(d, now - Clock(log)));
      }
    }
  }

  lemma {:induction false} Distributes(d: real, x: real, y: real)
    ensures Times(d, x + y) == Times(d, x) + Times(d, y)
  {
  }

  lemma {:induction false} PopularityPositive(log: seq<Event>, id: ExpertId, d: real, now: nat)
    requires Clock(log) <= now && d > 0.0
    ensures Popularity(log, id, d, now) >= 0.0
    ensures Popularity(log, id, d, now) > 0.0 <==> Accesses(log, id) > 0
  {
    if log != [] {
      PopularityPositive(log[..|log| - 1], id, d, now);
      PowBounds(d, now - Clock(log));
    }
  }

  function Layer(log: seq<Event>, id: ExpertId): (r: real)
    ensures 0.0 <= r <= 1.0
  {
    if log == [] then 0.0
    else match log[|log| - 1]
      case LayerHint(x, value) => if x == id then Clamped(value) else Layer(log[..|log| - 1], id)
      case _ => Layer(log[..|log| - 1], id)
  }

  function Confidence(log: seq<Event>, id: ExpertId): (r: real)
    ensures 0.0 <= r <= 1.0
  {
    if log == [] then 0.0
    else match log[|log| - 1]
      case ConfidenceHint(x, value) => if x == id then Clamped(value) else Confidence(log[..|log| - 1], id)
      case _ => Confidence(log[..|log| - 1], id)
  }

  /** The clock when the last hint about an expert came in. */
  function HintedAt(log: seq<Event>, id: ExpertId): (r: Option<nat>)
    ensures r.Some? ==> r.value <= Clock(log)
  {
    if log == [] then None
    else
      var e := log[|log| - 1];
      if e.id == id && (e.LayerHint? || e.ConfidenceHint?) then Some(Clock(log))
      else
        ClockGrows(log);
        HintedAt(log[..|log| - 1], id)
  }

  // ---- the score ----

  /** The share an expert holds of a maximum. */
  function Share(part: nat, whole: nat): real {
    if whole == 0 then 0.0 else part as real / whole as real
  }

  function Saturated(popularity: real): real
    requires popularity >= 0.0
  {
    popularity / (popularity + 8.0)
  }

  lemma {:induction false} ShareBounds(part: nat, whole: nat)
    requires part <= whole
    ensures 0.0 <= Share(part, whole) <= 1.0
  {
    if whole > 0 {
      assert part as real / whole as real * whole as real == part as real;
    }
  }

  lemma {:induction false} SaturatedGrows(p: real, q: real)
    requires 0.0 <= p < q
    ensures 0.0 <= Saturated(p) < Saturated(q) < 1.0
  {
    assert Saturated(p) * (p + 8.0) == p;
    assert Saturated(q) * (q + 8.0) == q;
    QuotientBelow(p, q);
  }

  lemma {:induction false} QuotientBelow(p: real, q: real)
    requires 0.0 <= p < q
    ensures p / (p + 8.0) == 1.0 - 8.0 / (p + 8.0)
    ensures q / (q + 8.0) == 1.0 - 8.0 / (q + 8.0)
    ensures 0.0 < 8.0 / (q + 8.0) < 8.0 / (p + 8.0) <= 1.0
  {
    OneMinus(p);
    OneMinus(q);
    var a, b := 8.0 / (p + 8.0), 8.0 / (q + 8.0);
    assert a * (p + 8.0) == 8.0 && b * (q + 8.0) == 8.0;
    assert b <= 0.0 ==> b * (q + 8.0) <= 0.0;
    assert a <= b ==> a * (p + 8.0) <= b * (p + 8.0);
    assert b > 0.0 ==> b * (p + 8.0) < b * (q + 8.0);
    assert a > 1.0 ==> a * (p + 8.0) > p + 8.0;
  }

  lemma {:induction false} OneMinus(p: real)
    requires p >= 0.0
    ensures p / (p + 8.0) == 1.0 - 8.0 / (p + 8.0)
  {
    assert p / (p + 8.0) + 8.0 / (p + 8.0) == (p + 8.0) / (p + 8.0) == 1.0;
  }

  /** Decay since a clock reading. */
  function Since(log: seq<Event>, d: real, stamp: nat): real {
    if stamp <= Clock(log) then Pow(d, Clock(log) - stamp) else 0.0
  }

  /** The age-aware score of an expert on the whole trace. */
  ghost function AgedScore(log: seq<Event>, id: ExpertId, d: real): real
    requires d > 0.0
  {
    PopularityPositive(log, id, d, Clock(log));
    var recency := if Accesses(log, id) == 0 then 0.0 else Since(log, d, TouchedAt(log, id));
    var hint := match HintedAt(log, id)
                case None => 0.0
                case Some(at) => Since(log, d, at);
    0.4 * Saturated(Popularity(log, id, d, Clock(log))) + 0.3 * recency
    + 0.3 * Times(Times(Layer(log, id), Confidence(log, id)), hint)
  }

  /** The plain score: lifetime counts, last touch and hints that never expire. */
  function PlainScore(log: seq<Event>, id: ExpertId): real {
    0.4 * Share(Accesses(log, id), MostAccesses(log)) + 0.3 * Share(TouchedAt(log, id), Clock(log))
    + 0.2 * Layer(log, id) + 0.1 * Confidence(log, id)
  }

  ghost function ScoreOf(log: seq<Event>, id: ExpertId, ageAware: bool, d: real): real
    requires d > 0.0
  {
    if ageAware then AgedScore(log, id, d) else PlainScore(log, id)
  }

  /** Scores are between 0 and 1, and an aged score stays below 1. */
  lemma {:induction false} ScoreBounds(log: seq<Event>, id: ExpertId, d: real, window: nat)
    requires HalvesOver(d, window)
    ensures 0.0 <= PlainScore(log, id) <= 1.0
    ensures 0.0 <= AgedScore(log, id, d) < 1.0
  {
    hide Times, Pow, Share, Saturated, Popularity;
    MostAccessesIsMaximum(log);
    RecencyByTime(log);
    ShareBounds(Accesses(log, id), MostAccesses(log));
    ShareBounds(TouchedAt(log, id), Clock(log));
    HalvingIsDecay(d, window);
    PopularityPositive(log, id, d, Clock(log));
    var p := Popularity(log, id, d, Clock(log));
    SaturatedGrows(p, p + 1.0);
    PowBounds(d, Clock(log) - TouchedAt(log, id));
    ProductBounds(Layer(log, id), Confidence(log, id));
    match HintedAt(log, id) {
      case None =>
        ProductBounds(Times(Layer(log, id), Confidence(log, id)), 0.0);
      case Some(at) =>
        PowBounds(d, Clock(log) - at);
        ProductBounds(Times(Layer(log, id), Confidence(log, id)), Pow(d, Clock(log) - at));
    }
  }

  /** An expert that is not accessed fades: whatever else happens, its
      popularity shrinks by one factor of d for every tick. */
  lemma {:induction false} UntouchedFades(log: seq<Event>, more: seq<Event>, id: ExpertId, d: real)
    requires d > 0.0
    requires Accessed(id) !in more
    ensures Clock(log) <= Clock(log + more)
    ensures Popularity(log + more, id, d, Clock(log + more))
         == Times(Pow(d, Clock(log + more) - Clock(log)), Popularity(log, id, d, Clock(log)))
  {
    hide Times, Pow, Clock;
    if more == [] {
      assert log + more == log;
      PopularityAges(log, id, d, Clock(log), Clock(log));
    } else {
      var n := |more| - 1;
      var near := log + more[..n];
      UntouchedFades(log, more[..n], id, d);
      ClockGrows(log + more);
      assert (log + more)[..|log + more| - 1] == near;
      Fade(log + more, near, id, d);
      var c0, c1, c2 := Clock(log), Clock(near), Clock(log + more);
      FadesOn(Pow(d, c2 - c1), Pow(d, c1 - c0), Popularity(log, id, d, c0));
      PowAdd(d, c2 - c1, c1 - c0);
      assert c2 - c1 + (c1 - c0) == c2 - c0;
    }
  }

  lemma {:induction false} Fade(log: seq<Event>, before: seq<Event>, id: ExpertId, d: real)
    requires log != [] && before == log[..|log| - 1] && log[|log| - 1] != Accessed(id)
    requires Clock(before) <= Clock(log)
    ensures Popularity(log, id, d, Clock(log))
         == Times(Pow(d, Clock(log) - Clock(before)), Popularity(before, id, d, Clock(before)))
  {
    hide Times, Pow, Clock;
    PopularityAges(before, id, d, Clock(before), Clock(log));
  }

  lemma {:induction false} FadesOn(x: real, y: real, p: real)
    ensures Times(x, Times(y, p)) == Times(Times(x, y), p)
  {
  }

  // ---- the policy ----

  ghost predicate IsVictim(log: seq<Event>, ageAware: bool, d: real, eligible: set<ExpertId>, victim: Option<ExpertId>)
    requires d > 0.0
  {
    && (victim.None? <==> eligible == {})
    && (victim.Some? ==> victim.value in eligible)
    && (victim.Some? ==> forall u | u in eligible && u != victim.value ::
          || ScoreOf(log, victim.value, ageAware, d) < ScoreOf(log, u, ageAware, d)
          || (ScoreOf(log, victim.value, ageAware, d) == ScoreOf(log, u, ageAware, d) && victim.value < u))
  }

  lemma {:induction false} VictimUnique(log: seq<Event>, ageAware: bool, d: real, eligible: set<ExpertId>,
                                        v: Option<ExpertId>, w: Option<ExpertId>)
    requires d > 0.0
    requires IsVictim(log, ageAware, d, eligible, v) && IsVictim(log, ageAware, d, eligible, w)
    ensures v == w
  {
    hide ScoreOf;
  }

  function Look(m: map<ExpertId, real>, id: ExpertId): real {
    if id in m then m[id] else 0.0
  }

  ghost predicate HintsAgree(log: seq<Event>, layer: map<ExpertId, real>, confidence: map<ExpertId, real>,
                             updated: map<ExpertId, nat>)
  {
    forall id: ExpertId ::
      && Look(layer, id) == Layer(log, id)
      && Look(confidence, id) == Confidence(log, id)
      && HintedAt(log, id) == if id in updated then Some(updated[id]) else None
  }

  lemma {:induction false} HintsOnLayer(log: seq<Event>, layer: map<ExpertId, real>, confidence: map<ExpertId, real>,
                                        updated: map<ExpertId, nat>, id: ExpertId, value: real)
    requires HintsAgree(log, layer, confidence, updated)
    ensures HintsAgree(log + [LayerHint(id, value)], layer[id := Clamped(value)], confidence, updated[id := Clock(log)])
  {
    var longer := log + [LayerHint(id, value)];
    assert longer[..|log|] == log;
    assert Clock(longer) == Clock(log);
  }

  lemma {:induction false} HintsOnConfidence(log: seq<Event>, layer: map<ExpertId, real>,
                                             confidence: map<ExpertId, real>, updated: map<ExpertId, nat>,
                                             id: ExpertId, value: real)
    requires HintsAgree(log, layer, confidence, updated)
    ensures HintsAgree(log + [ConfidenceHint(id, value)], layer, confidence[id := Clamped(value)],
                       updated[id := Clock(log)])
  {
    var longer := log + [ConfidenceHint(id, value)];
    assert longer[..|log|] == log;
    assert Clock(longer) == Clock(log);
  }

  lemma {:induction false} HintsOnOther(log: seq<Event>, layer: map<ExpertId, real>, confidence: map<ExpertId, real>,
                                        updated: map<ExpertId, nat>, e: Event)
    requires HintsAgree(log, layer, confidence, updated)
    requires !e.LayerHint? && !e.ConfidenceHint?
    ensures HintsAgree(log + [e], layer, confidence, updated)
  {
    assert (log + [e])[..|log|] == log;
  }

  /** The lazily decayed counters: brought to the present, each equals the
      weighted sum over all accesses. */
  ghost predicate DecayAgrees(log: seq<Event>, d: real, decayed: map<ExpertId, real>) {
    forall id: ExpertId ::
      && (id in decayed <==> Accesses(log, id) > 0)
      && TouchedAt(log, id) <= Clock(log)
      && (id in decayed ==>
            Times(decayed[id], Pow(d, Clock(log) - TouchedAt(log, id))) == Popularity(log, id, d, Clock(log)))
  }

  /** The counter after an access, from the counter and stamp before it. */
  function Accrued(decayed: map<ExpertId, real>, lastAccess: map<ExpertId, nat>, clock: nat, d: real,
                   id: ExpertId): real
  {
    var age := if id in lastAccess && lastAccess[id] <= clock then clock + 1 - lastAccess[id] else 0;
    Times(Look(decayed, id), Pow(d, age)) + 1.0
  }

  lemma {:induction false} DecayOne(log: seq<Event>, d: real, decayed: map<ExpertId, real>, e: Event, id: ExpertId)
    requires d > 0.0 && DecayAgrees(log, d, decayed)
    requires e != Accessed(id)
    ensures TouchedAt(log + [e], id) <= Clock(log + [e])
    ensures id in decayed ==>
      Times(decayed[id], Pow(d, Clock(log + [e]) - TouchedAt(log + [e], id)))
      == Popularity(log + [e], id, d, Clock(log + [e]))
  {
    hide Times, Pow;
    var longer := log + [e];
    assert longer[..|log|] == log;
    ClockGrows(longer);
    RecencyByTime(longer);
    if id in decayed {
      AccessedIsTouched(log, id);
      assert TouchedAt(longer, id) == TouchedAt(log, id);
      var gap := Clock(longer) - Clock(log);
      PopularityAges(log, id, d, Clock(log), Clock(longer));
      PowAdd(d, gap, Clock(log) - TouchedAt(log, id));
      Swap(decayed[id], Pow(d, gap), Pow(d, Clock(log) - TouchedAt(log, id)));
    }
  }

  lemma {:induction false} Swap(c: real, x: real, y: real)
    ensures Times(c, Times(x, y)) == Times(x, Times(c, y))
  {
  }

  lemma {:induction false} DecayOnOther(log: seq<Event>, d: real, decayed: map<ExpertId, real>, e: Event)
    requires d > 0.0 && DecayAgrees(log, d, decayed) && !e.Accessed?
    ensures DecayAgrees(log + [e], d, decayed)
  {
    assert (log + [e])[..|log|] == log;
    forall id: ExpertId ensures
      && (id in decayed <==> Accesses(log + [e], id) > 0)
      && TouchedAt(log + [e], id) <= Clock(log + [e])
      && (id in decayed ==>
        Times(decayed[id], Pow(d, Clock(log + [e]) - TouchedAt(log + [e], id)))
        == Popularity(log + [e], id, d, Clock(log + [e])))
    {
      hide Times, Pow, Popularity;
      DecayOne(log, d, decayed, e, id);
    }
  }

  lemma {:induction false} AccessCounts(log: seq<Event>, d: real, id: ExpertId)
    ensures Clock(log + [Accessed(id)]) == Clock(log) + 1
    ensures Popularity(log + [Accessed(id)], id, d, Clock(log) + 1) == Popularity(log, id, d, Clock(log) + 1) + 1.0
  {
    assert (log + [Accessed(id)])[..|log|] == log;
    assert Pow(d, 0) == 1.0;
  }

  /** The accessed expert itself. */
  lemma {:induction false} AccruedIsPopularity(log: seq<Event>, d: real, decayed: map<ExpertId, real>,
                                               lastAccess: map<ExpertId, nat>, id: ExpertId)
    requires d > 0.0 && DecayAgrees(log, d, decayed) && ClockAgrees(log, Clock(log), lastAccess)
    ensures Clock(log + [Accessed(id)]) == TouchedAt(log + [Accessed(id)], id) == Clock(log) + 1
    ensures Accrued(decayed, lastAccess, Clock(log), d, id)
         == Popularity(log + [Accessed(id)], id, d, Clock(log) + 1)
  {
    AccessCounts(log, d, id);
    hide Times, Pow, Popularity, Clock, TouchedAt, Accesses;
    var longer := log + [Accessed(id)];
    assert longer[..|log|] == log;
    TouchedUnfolds(longer, id);
    PopularityNone(log, id, d, Clock(log) + 1);
    assert TouchedAt(log, id) == Get(lastAccess, id) <= Clock(log);
    if id in decayed {
      AccessedIsTouched(log, id);
      var age := Clock(log) - TouchedAt(log, id);
      PopularityAges(log, id, d, Clock(log), Clock(log) + 1);
      PowAdd(d, 1, age);
      Swap(decayed[id], Pow(d, 1), Pow(d, age));
    } else {
      Zero(Pow(d, if id in lastAccess then Clock(log) + 1 - lastAccess[id] else 0));
    }
  }

  lemma {:induction false} Zero(x: real)
    ensures Times(0.0, x) == 0.0 && Times(x, 1.0) == x
  {
  }

  lemma {:induction false} DecayOnAccess(log: seq<Event>, d: real, decayed: map<ExpertId, real>,
                                         lastAccess: map<ExpertId, nat>, id: ExpertId)
    requires d > 0.0 && DecayAgrees(log, d, decayed) && ClockAgrees(log, Clock(log), lastAccess)
    ensures DecayAgrees(log + [Accessed(id)], d, decayed[id := Accrued(decayed, lastAccess, Clock(log), d, id)])
  {
    var e := Accessed(id);
    var next := decayed[id := Accrued(decayed, lastAccess, Clock(log), d, id)];
    assert (log + [e])[..|log|] == log;
    AccruedIsPopularity(log, d, decayed, lastAccess, id);
    Zero(next[id]);
    assert Pow(d, 0) == 1.0;
    forall x: ExpertId ensures
      && (x in next <==> Accesses(log + [e], x) > 0)
      && TouchedAt(log + [e], x) <= Clock(log + [e])
      && (x in next ==>
        Times(next[x], Pow(d, Clock(log + [e]) - TouchedAt(log + [e], x)))
        == Popularity(log + [e], x, d, Clock(log + [e])))
    {
      hide Times, Pow, Popularity, Accrued;
      if x != id {
        DecayOne(log, d, decayed, e, x);
      }
    }
  }

  class HybridCachePolicy {
    const ageAware: bool
    const observationWindow: nat
    /** What one tick of the clock multiplies decayed quantities by. */
    const d: real
    var clock: nat
    var maximumFrequency: nat
    var decayedFrequency: map<ExpertId, real>
    var predictionUpdated: map<ExpertId, nat>
    var frequency: map<ExpertId, nat>
    var lastAccess: map<ExpertId, nat>
    var layerProbability: map<ExpertId, real>
    var prefetchConfidence: map<ExpertId, real>
    ghost var log: seq<Event>

    ghost predicate Valid()
      reads this
    {
      && d > 0.0 && HalvesOver(d, observationWindow)
      && ClockAgrees(log, clock, lastAccess)
      && CountAgrees(log, frequency)
      && maximumFrequency == MostAccesses(log)
      && HintsAgree(log, layerProbability, prefetchConfidence, predictionUpdated)
      && (ageAware ==> DecayAgrees(log, d, decayedFrequency))
    }

    constructor (ageAware: bool, observationWindow: nat, d: real)
      requires HalvesOver(d, observationWindow)
      ensures Valid() && log == []
      ensures this.ageAware == ageAware && this.observationWindow == observationWindow && this.d == d
    {
      this.ageAware, this.observationWindow, this.d := ageAware, observationWindow, d;
      clock, maximumFrequency, decayedFrequency, predictionUpdated := 0, 0, map[], map[];
      frequency, lastAccess, layerProbability, prefetchConfidence := map[], map[], map[], map[];
      log := [];
    }

    method OnAccess(id: ExpertId)
      requires Valid()
      modifies this
      ensures Valid() && log == old(log) + [Accessed(id)]
    {
      hide ClockAgrees, CountAgrees, HintsAgree, DecayAgrees, HalvesOver, MostAccesses, Accrued, Clock;
      var e := Accessed(id);
      ClockField(log, clock, lastAccess);
      if ageAware {
        DecayOnAccess(log, d, decayedFrequency, lastAccess, id);
        decayedFrequency := decayedFrequency[id := Accrued(decayedFrequency, lastAccess, clock, d, id)];
      }
      CountOnAccess(log, frequency, id);
      ClockOnAccess(log, clock, lastAccess, id);
      HintsOnOther(log, layerProbability, prefetchConfidence, predictionUpdated, e);
      MostOn(log, frequency, e);
      frequency := Bump(frequency, id);
      maximumFrequency := if frequency[id] > maximumFrequency then frequency[id] else maximumFrequency;
      clock := clock + 1;
      lastAccess := lastAccess[id := clock];
      log := log + [e];
    }

    method OnResident(id: ExpertId)
      requires Valid()
      modifies this
      ensures Valid() && log == old(log) + [Arrived(id)]
    {
      hide ClockAgrees, CountAgrees, HintsAgree, DecayAgrees, Popularity, Times, Pow;
      var e := Arrived(id);
      CountOnOther(log, frequency, e);
      ClockOnArrival(log, clock, lastAccess, id);
      HintsOnOther(log, layerProbability, prefetchConfidence, predictionUpdated, e);
      MostOn(log, frequency, e);
      if ageAware {
        DecayOnOther(log, d, decayedFrequency, e);
      }
      if id !in frequency {
        frequency := frequency[id := 0];
      }
      if id !in lastAccess {
        clock := clock + 1;
        lastAccess := lastAccess[id := clock];
      }
      log := log + [e];
    }

    method OnEvict(id: ExpertId)
      requires Valid()
      modifies this`log
      ensures Valid() && log == old(log) + [Evicted(id)]
    {
      hide ClockAgrees, CountAgrees, HintsAgree, DecayAgrees, Popularity, Times, Pow;
      var e := Evicted(id);
      CountOnOther(log, frequency, e);
      ClockOnOther(log, clock, lastAccess, e);
      HintsOnOther(log, layerProbability, prefetchConfidence, predictionUpdated, e);
      MostOn(log, frequency, e);
      if ageAware {
        DecayOnOther(log, d, decayedFrequency, e);
      }
      log := log + [e];
    }

    method SetLayerProbability(id: ExpertId, probability: real)
      requires Valid()
      modifies this
      ensures Valid() && log == old(log) + [LayerHint(id, probability)]
    {
      hide ClockAgrees, CountAgrees, HintsAgree, DecayAgrees, Popularity, Times, Pow;
      var e := LayerHint(id, probability);
      ClockField(log, clock, lastAccess);
      CountOnOther(log, frequency, e);
      ClockOnOther(log, clock, lastAccess, e);
      HintsOnLayer(log, layerProbability, prefetchConfidence, predictionUpdated, id, probability);
      MostOn(log, frequency, e);
      if ageAware {
        DecayOnOther(log, d, decayedFrequency, e);
      }
      layerProbability := layerProbability[id := Clamped(probability)];
      predictionUpdated := predictionUpdated[id := clock];
      log := log + [e];
    }

    method SetPrefetchConfidence(id: ExpertId, confidence: real)
      requires Valid()
      modifies this
      ensures Valid() && log == old(log) + [ConfidenceHint(id, confidence)]
    {
      hide ClockAgrees, CountAgrees, HintsAgree, DecayAgrees, Popularity, Times, Pow;
      var e := ConfidenceHint(id, confidence);
      ClockField(log, clock, lastAccess);
      CountOnOther(log, frequency, e);
      ClockOnOther(log, clock, lastAccess, e);
      HintsOnConfidence(log, layerProbability, prefetchConfidence, predictionUpdated, id, confidence);
      MostOn(log, frequency, e);
      if ageAware {
        DecayOnOther(log, d, decayedFrequency, e);
      }
      prefetchConfidence := prefetchConfidence[id := Clamped(confidence)];
      predictionUpdated := predictionUpdated[id := clock];
      log := log + [e];
    }

    /** The decay factor for something last updated at a clock reading. */
    function Decay(updated: nat): real
      reads this
      requires updated <= clock
    {
      Pow(d, clock - updated)
    }

    /** The stored score is the score of the whole trace. */
    method Score(id: ExpertId) returns (score: real)
      requires Valid()
      ensures score == ScoreOf(log, id, ageAware, d)
    {
      hide Popularity, Times, Pow, Layer, Confidence, Accesses, TouchedAt, Clock, HintedAt, MostAccesses, Saturated;
      assert Get(lastAccess, id) == TouchedAt(log, id) && Get(frequency, id) == Accesses(log, id);
      var layer, confidence := Look(layerProbability, id), Look(prefetchConfidence, id);
      assert layer == Layer(log, id) && confidence == Confidence(log, id);
      if ageAware {
        PopularityPositive(log, id, d, clock);
        PopularityNone(log, id, d, clock);
        AccessedIsTouched(log, id);
        assert id in decayedFrequency <==> Accesses(log, id) > 0;
        assert HintedAt(log, id) == if id in predictionUpdated then Some(predictionUpdated[id]) else None;
        var recency := if id !in lastAccess || id !in decayedFrequency then 0.0 else Decay(lastAccess[id]);
        var popularity := if id !in decayedFrequency then 0.0 else Times(decayedFrequency[id], recency);
        var hint := if id !in predictionUpdated then 0.0 else Decay(predictionUpdated[id]);
        assert popularity == Popularity(log, id, d, clock);
        score := 0.4 * Saturated(popularity) + 0.3 * recency + 0.3 * Times(Times(layer, confidence), hint);
      } else {
        score := 0.4 * NormalizedFrequency(id) + 0.3 * NormalizedRecency(id) + 0.2 * layer + 0.1 * confidence;
      }
    }

    function NormalizedFrequency(id: ExpertId): real
      reads this
    {
      if maximumFrequency == 0 || id !in frequency then 0.0
      else frequency[id] as real / maximumFrequency as real
    }

    function NormalizedRecency(id: ExpertId): real
      reads this
    {
      if clock == 0 || id !in lastAccess then 0.0 else lastAccess[id] as real / clock as real
    }

    /** The victim is the eligible candidate of least score on the whole trace. */
    method SelectVictim(candidates: seq<ExpertId>, excluded: set<ExpertId>) returns (victim: Option<ExpertId>)
      requires Valid()
      ensures IsVictim(log, ageAware, d, Eligible(candidates, excluded), victim)
    {
      hide ScoreOf;
      victim := None;
      var minimum := 0.0;
      for i := 0 to |candidates|
        invariant victim.None? ==> forall j | 0 <= j < i :: candidates[j] in excluded
        invariant victim.Some? ==> victim.value in candidates[..i] && victim.value !in excluded
        invariant victim.Some? ==> minimum == ScoreOf(log, victim.value, ageAware, d)
        invariant victim.Some? ==> forall j | 0 <= j < i && candidates[j] !in excluded && candidates[j] != victim.value ::
          || minimum < ScoreOf(log, candidates[j], ageAware, d)
          || (minimum == ScoreOf(log, candidates[j], ageAware, d) && victim.value < candidates[j])
      {
        var id := candidates[i];
        if id !in excluded {
          var score := Score(id);
          if victim.None? || score < minimum || (score == minimum && id < victim.value) {
            victim, minimum := Some(id), score;
          }
        }
      }
      if victim.Some? {
        assert victim.value in Eligible(candidates, excluded);
      }
    }
  }

  lemma {:induction false} ClockField(log: seq<Event>, clock: nat, lastAccess: map<ExpertId, nat>)
    requires ClockAgrees(log, clock, lastAccess)
    ensures clock == Clock(log)
  {
  }

  lemma {:induction false} PopularityNone(log: seq<Event>, id: ExpertId, d: real, now: nat)
    requires Clock(log) <= now && d > 0.0
    ensures Accesses(log, id) == 0 ==> Popularity(log, id, d, now) == 0.0
  {
    PopularityPositive(log, id, d, now);
  }

  datatype PolicyError = ZeroWindow

  /** The source's construction: an observation window of zero is refused. */
  method Make(ageAware: bool, observationWindow: nat, d: real) returns (r: Result<HybridCachePolicy, PolicyError>)
    requires observationWindow > 0 ==> HalvesOver(d, observationWindow)
    ensures r.Err? <==> observationWindow == 0
    ensures r.Ok? ==>
      && fresh(r.value) && r.value.Valid() && r.value.log == []
      && r.value.ageAware == ageAware && r.value.observationWindow == observationWindow && r.value.d == d
  {
    if observationWindow == 0 {
      return Err(ZeroWindow);
    }
    var policy := new HybridCachePolicy(ageAware, observationWindow, d);
    r := Ok(policy);
  }

  /** How an event moves the largest count. */
  lemma {:induction false} MostOn(log: seq<Event>, frequency: map<ExpertId, nat>, e: Event)
    requires CountAgrees(log, frequency)
    ensures !e.Accessed? ==> MostAccesses(log + [e]) == MostAccesses(log)
    ensures e.Accessed? ==>
      MostAccesses(log + [e])
      == if Get(frequency, e.id) + 1 > MostAccesses(log) then Get(frequency, e.id) + 1 else MostAccesses(log)
  {
    assert (log + [e])[..|log|] == log;
  }
}
