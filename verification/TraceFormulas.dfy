/**
What the eviction policies and the routing statistics go by, said of the events
and observations themselves: which of them count, and for how much.
 */
module TraceFormulas {
  import opened Wrappers
  import opened Matrices
  import opened Tallies
  import opened AccessTraces
  import opened HybridPolicy
  import opened ProductFormulas

  /** Accesses and arrivals show an expert. */
  predicate Shows(e: Event, id: ExpertId) {
    (e.Accessed? || e.Arrived?) && e.id == id
  }

  predicate Seen(log: seq<Event>, id: ExpertId) {
    exists i :: 0 <= i < |log| && Shows(log[i], id)
  }

  lemma {:induction false} SeenIsTouched(log: seq<Event>, id: ExpertId)
    ensures TouchedAt(log, id) > 0 <==> Seen(log, id)
    ensures TouchedAt(log, id) <= Clock(log)
  {
    if log != [] {
      var before := log[..|log| - 1];
      SeenIsTouched(before, id);
      SeenIsTouched(before, log[|log| - 1].id);
      TouchedUnfolds(log, id);
      hide TouchedAt, Clock;
      SeenStep(log, before, id);
    }
  }

  lemma {:induction false} SeenStep(log: seq<Event>, before: seq<Event>, id: ExpertId)
    requires log != [] && before == log[..|log| - 1]
    ensures Seen(log, id) <==> Seen(before, id) || Shows(log[|log| - 1], id)
  {
    if Seen(before, id) {
      var i :| 0 <= i < |before| && Shows(before[i], id);
      assert log[i] == before[i];
    }
  }

  /** Event i moves the clock: an access, or the first sight of an expert. */
  predicate Ticks(log: seq<Event>, i: nat)
    requires i < |log|
  {
    log[i].Accessed? || (log[i].Arrived? && forall j | 0 <= j < i :: !Shows(log[j], log[i].id))
  }

  /** The clock reads the number of ticks. */
  lemma {:induction false} ClockIs(log: seq<Event>)
    ensures Clock(log) == |set i | 0 <= i < |log| && Ticks(log, i)|
  {
    if log != [] {
      var n := |log| - 1;
      ClockIs(log[..n]);
      SeenIsTouched(log[..n], log[n].id);
      TouchedUnfolds(log, log[n].id);
      hide Clock, TouchedAt;
      OneTickMore(log);
    }
  }

  lemma {:induction false} OneTickMore(log: seq<Event>)
    requires log != []
    ensures var n := |log| - 1;
      && (Ticks(log, n) <==> log[n].Accessed? || (log[n].Arrived? && !Seen(log[..n], log[n].id)))
      && |set i | 0 <= i < |log| && Ticks(log, i)|
         == |set i | 0 <= i < n && Ticks(log[..n], i)| + if Ticks(log, n) then 1 else 0
  {
    var n := |log| - 1;
    var before := log[..n];
    assert forall i | 0 <= i < n :: before[i] == log[i];
    assert forall i | 0 <= i < n :: Ticks(log, i) <==> Ticks(before, i);
    hide Ticks;
    assert (set i | 0 <= i < |log| && Ticks(log, i))
        == (set i | 0 <= i < n && Ticks(before, i)) + if Ticks(log, n) then {n} else {};
  }

  /** An expert's stamp is the reading at its last access, or at its first
      sight. */
  lemma {:induction false} StampIs(log: seq<Event>, n: nat, id: ExpertId)
    requires n < |log| && Shows(log[n], id) && Ticks(log, n)
    requires forall i | n < i < |log| :: log[i] != Accessed(id)
    ensures TouchedAt(log, id) == Clock(log[..n + 1])
  {
    var k := |log| - 1;
    var before := log[..k];
    TouchedUnfolds(log, id);
    if n < k {
      assert before[..n + 1] == log[..n + 1];
      StampIs(before, n, id);
      SeenIsTouched(before, id);
      assert Shows(before[n], id);
    } else {
      SeenIsTouched(before, id);
      assert log[..n + 1] == log;
    }
  }

  lemma {:induction false} AccessesIs(log: seq<Event>, id: ExpertId)
    ensures Accesses(log, id) == |set i | 0 <= i < |log| && log[i] == Accessed(id)|
  {
    if log != [] {
      AccessesIs(log[..|log| - 1], id);
      OneEventMore(log, id);
    }
  }

  lemma {:induction false} OneEventMore(log: seq<Event>, id: ExpertId)
    requires log != []
    ensures var n := |log| - 1;
      |set i | 0 <= i < |log| && log[i] == Accessed(id)|
      == |set i | 0 <= i < n && log[..n][i] == Accessed(id)| + if log[n] == Accessed(id) then 1 else 0
  {
    var n := |log| - 1;
    assert forall i | 0 <= i < n :: log[..n][i] == log[i];
    assert (set i | 0 <= i < |log| && log[i] == Accessed(id))
        == (set i | 0 <= i < n && log[..n][i] == Accessed(id)) + if log[n] == Accessed(id) then {n} else {};
  }

  /** The clock when the last hint of either kind came in, if any came. */
  lemma {:induction false} HintIs(log: seq<Event>, n: nat, id: ExpertId)
    requires n < |log| && (log[n].LayerHint? || log[n].ConfidenceHint?) && log[n].id == id
    requires forall i | n < i < |log| :: !((log[i].LayerHint? || log[i].ConfidenceHint?) && log[i].id == id)
    ensures HintedAt(log, id) == Some(Clock(log[..n + 1]))
  {
    var k := |log| - 1;
    if n < k {
      assert log[..k][..n + 1] == log[..n + 1];
      HintIs(log[..k], n, id);
    } else {
      assert log[..n + 1] == log;
    }
  }

  lemma {:induction false} NeverHinted(log: seq<Event>, id: ExpertId)
    requires forall i | 0 <= i < |log| :: !((log[i].LayerHint? || log[i].ConfidenceHint?) && log[i].id == id)
    ensures HintedAt(log, id) == None
  {
    if log != [] {
      NeverHinted(log[..|log| - 1], id);
    }
  }

  lemma {:induction false} ClockPrefix(log: seq<Event>, n: nat)
    requires n <= |log|
    ensures Clock(log[..n]) <= Clock(log)
  {
    if n < |log| {
      ClockGrows(log);
      ClockPrefix(log[..|log| - 1], n);
      assert log[..|log| - 1][..n] == log[..n];
    } else {
      assert log[..n] == log;
    }
  }

  /** The weight of event i at a clock reading: the decay factor to the power
      of the ticks since, for an access. */
  predicate IsWeight(log: seq<Event>, id: ExpertId, d: real, now: nat, i: nat, weight: real)
    requires i < |log|
  {
    var at := Clock(log[..i + 1]);
    at <= now && weight == if log[i] == Accessed(id) then Pow(d, now - at) else 0.0
  }

  /** Popularity is the sum of those weights. */
  lemma {:induction false} PopularityIs(log: seq<Event>, id: ExpertId, d: real, now: nat, weights: seq<real>)
    requires Clock(log) <= now && |weights| == |log|
    requires forall i | 0 <= i < |log| :: IsWeight(log, id, d, now, i, weights[i])
    ensures SumsTo(weights, Popularity(log, id, d, now))
  {
    PopularitySum(log, id, d, now, weights);
    SumIs(weights, Popularity(log, id, d, now));
  }

  lemma {:induction false} PopularitySum(log: seq<Event>, id: ExpertId, d: real, now: nat, weights: seq<real>)
    requires Clock(log) <= now && |weights| == |log|
    requires forall i | 0 <= i < |log| :: IsWeight(log, id, d, now, i, weights[i])
    ensures Popularity(log, id, d, now) == Sum(weights)
  {
    if log != [] {
      var n := |log| - 1;
      ClockGrows(log);
      hide Clock, Pow;
      forall i | 0 <= i < n ensures IsWeight(log[..n], id, d, now, i, weights[..n][i]) {
        assert log[..n][..i + 1] == log[..i + 1] && IsWeight(log, id, d, now, i, weights[i]);
      }
      PopularitySum(log[..n], id, d, now, weights[..n]);
      assert log[..n + 1] == log && IsWeight(log, id, d, now, n, weights[n]);
    }
  }
}

/** Which expert each policy gives up. */
module VictimFormulas {
  import opened Wrappers
  import opened AccessTraces
  import HybridPolicy
  import LfuPolicy
  import LruPolicy

  lemma {:induction false} EligibleAre(candidates: seq<ExpertId>, excluded: set<ExpertId>, id: ExpertId)
    ensures id in Eligible(candidates, excluded) <==> id !in excluded && exists i :: 0 <= i < |candidates| && candidates[i] == id
  {
  }

  /** The longest untouched; of those never seen the smallest. */
  lemma {:induction false} LeastRecent(log: seq<Event>, eligible: set<ExpertId>, victim: Option<ExpertId>)
    ensures LruPolicy.IsVictim(log, eligible, victim) <==>
      match victim
      case None => eligible == {}
      case Some(v) => v in eligible && forall u | u in eligible && u != v ::
        TouchedAt(log, v) < TouchedAt(log, u) || (TouchedAt(log, v) == TouchedAt(log, u) && v < u)
  {
    hide Older, TouchedAt, Recency;
    if victim.Some? {
      forall u | u in eligible && u != victim.value
        ensures Older(Recency(log), victim.value, u) <==>
          || TouchedAt(log, victim.value) < TouchedAt(log, u)
          || (TouchedAt(log, victim.value) == TouchedAt(log, u) && victim.value < u)
      {
        OlderByTime(log, victim.value, u);
      }
    }
  }

  /** The fewest accesses; among equals the longest untouched. */
  lemma {:induction false} LeastFrequent(log: seq<Event>, eligible: set<ExpertId>, victim: Option<ExpertId>)
    ensures LfuPolicy.IsVictim(log, eligible, victim) <==>
      match victim
      case None => eligible == {}
      case Some(v) => v in eligible && forall u | u in eligible && u != v ::
        || Accesses(log, v) < Accesses(log, u)
        || (Accesses(log, v) == Accesses(log, u)
            && (TouchedAt(log, v) < TouchedAt(log, u) || (TouchedAt(log, v) == TouchedAt(log, u) && v < u)))
  {
    hide Older, TouchedAt, Recency, Accesses;
    if victim.Some? {
      forall u | u in eligible && u != victim.value
        ensures Older(Recency(log), victim.value, u) <==>
          || TouchedAt(log, victim.value) < TouchedAt(log, u)
          || (TouchedAt(log, victim.value) == TouchedAt(log, u) && victim.value < u)
      {
        OlderByTime(log, victim.value, u);
      }
    }
  }

  /** The lowest score, with or without ages; among equals the smallest. */
  lemma {:induction false} LeastScore(log: seq<Event>, ageAware: bool, d: real, eligible: set<ExpertId>,
                                      victim: Option<ExpertId>)
    requires d > 0.0
    ensures HybridPolicy.IsVictim(log, ageAware, d, eligible, victim) <==>
      match victim
      case None => eligible == {}
      case Some(v) => v in eligible && forall u | u in eligible && u != v ::
        if ageAware then
          || HybridPolicy.AgedScore(log, v, d) < HybridPolicy.AgedScore(log, u, d)
          || (HybridPolicy.AgedScore(log, v, d) == HybridPolicy.AgedScore(log, u, d) && v < u)
        else
          || HybridPolicy.PlainScore(log, v) < HybridPolicy.PlainScore(log, u)
          || (HybridPolicy.PlainScore(log, v) == HybridPolicy.PlainScore(log, u) && v < u)
  {
    hide HybridPolicy.AgedScore, HybridPolicy.PlainScore;
  }
}

/** The hybrid policy's scores, weight by weight. */
module HybridFormulas {
  import opened Wrappers
  import opened Tallies
  import opened AccessTraces
  import opened HybridPolicy
  import opened RoutingFormulas

  /** A share f of a whole, none of nothing. */
  predicate IsShare(part: nat, whole: nat, f: real) {
    if whole == 0 then f == 0.0 else f * whole as real == part as real
  }

  lemma {:induction false} ShareIs(part: nat, whole: nat, f: real)
    ensures IsShare(part, whole, f) <==> f == Share(part, whole)
  {
    if whole != 0 {
      QuotientTimes(part as real, whole as real);
      if f * whole as real == part as real {
        assert (f - Share(part, whole)) * whole as real == 0.0;
      }
    }
  }

  /** Four tenths frequency, three tenths recency, two tenths layer hint, one
      tenth confidence. */
  lemma {:induction false} PlainFormula(log: seq<Event>, id: ExpertId, frequency: real, recency: real)
    requires IsShare(Accesses(log, id), MostAccesses(log), frequency)
    requires IsShare(TouchedAt(log, id), Clock(log), recency)
    ensures PlainScore(log, id) == 0.4 * frequency + 0.3 * recency + 0.2 * Layer(log, id) + 0.1 * Confidence(log, id)
  {
    ShareIs(Accesses(log, id), MostAccesses(log), frequency);
    ShareIs(TouchedAt(log, id), Clock(log), recency);
  }

  /** With ages: four tenths of a saturated popularity, three tenths of the
      decayed recency, three tenths of both hints together, decayed. */
  lemma {:induction false} AgedFormula(log: seq<Event>, id: ExpertId, d: real, saturated: real, recency: real, hint: real)
    requires d > 0.0 && Popularity(log, id, d, Clock(log)) >= 0.0
    requires saturated * (Popularity(log, id, d, Clock(log)) + 8.0) == Popularity(log, id, d, Clock(log))
    requires recency == if Accesses(log, id) > 0 && TouchedAt(log, id) <= Clock(log)
                        then Pow(d, Clock(log) - TouchedAt(log, id)) else 0.0
    requires hint == if HintedAt(log, id).Some? then Pow(d, Clock(log) - HintedAt(log, id).value) else 0.0
    ensures AgedScore(log, id, d)
         == 0.4 * saturated + 0.3 * recency + 0.3 * (Layer(log, id) * Confidence(log, id) * hint)
  {
    hide Saturated, Popularity, Pow, Accesses, TouchedAt, Layer, Confidence, HintedAt, Clock, Times;
    var p := Popularity(log, id, d, Clock(log));
    SaturatedIs(p, saturated);
    ThreeTimes(Layer(log, id), Confidence(log, id), hint);
    var product := Times(Times(Layer(log, id), Confidence(log, id)), hint);
    assert AgedScore(log, id, d) == 0.4 * Saturated(p) + 0.3 * recency + 0.3 * product by {
      AgedParts(log, id, d, recency, hint);
    }
  }

  lemma {:induction false} AgedParts(log: seq<Event>, id: ExpertId, d: real, recency: real, hint: real)
    requires d > 0.0 && Popularity(log, id, d, Clock(log)) >= 0.0
    requires recency == if Accesses(log, id) > 0 && TouchedAt(log, id) <= Clock(log)
                        then Pow(d, Clock(log) - TouchedAt(log, id)) else 0.0
    requires hint == if HintedAt(log, id).Some? then Pow(d, Clock(log) - HintedAt(log, id).value) else 0.0
    ensures AgedScore(log, id, d)
         == 0.4 * Saturated(Popularity(log, id, d, Clock(log))) + 0.3 * recency
            + 0.3 * Times(Times(Layer(log, id), Confidence(log, id)), hint)
  {
    hide Saturated, Popularity, Pow, Accesses, TouchedAt, Layer, Confidence, HintedAt, Clock, Times;
  }

  lemma {:induction false} ThreeTimes(x: real, y: real, z: real)
    ensures Times(Times(x, y), z) == x * y * z
  {
  }

  lemma {:induction false} SaturatedIs(p: real, s: real)
    requires p >= 0.0 && s * (p + 8.0) == p
    ensures s == Saturated(p)
  {
    QuotientTimes(p, p + 8.0);
    assert (s - Saturated(p)) * (p + 8.0) == 0.0;
  }

  /** A hint is the last one given, cut off at nothing and one. */
  lemma {:induction false} LayerIs(log: seq<Event>, id: ExpertId, n: nat, value: real)
    requires n < |log| && log[n] == LayerHint(id, value)
    requires forall i | n < i < |log| :: !(log[i].LayerHint? && log[i].id == id)
    ensures Layer(log, id) == if value < 0.0 then 0.0 else if value > 1.0 then 1.0 else value
  {
    if n < |log| - 1 {
      LayerIs(log[..|log| - 1], id, n, value);
    }
  }

  lemma {:induction false} ConfidenceIs(log: seq<Event>, id: ExpertId, n: nat, value: real)
    requires n < |log| && log[n] == ConfidenceHint(id, value)
    requires forall i | n < i < |log| :: !(log[i].ConfidenceHint? && log[i].id == id)
    ensures Confidence(log, id) == if value < 0.0 then 0.0 else if value > 1.0 then 1.0 else value
  {
    if n < |log| - 1 {
      ConfidenceIs(log[..|log| - 1], id, n, value);
    }
  }

  lemma {:induction false} NoHint(log: seq<Event>, id: ExpertId)
    ensures (forall i | 0 <= i < |log| :: !(log[i].LayerHint? && log[i].id == id)) ==> Layer(log, id) == 0.0
    ensures (forall i | 0 <= i < |log| :: !(log[i].ConfidenceHint? && log[i].id == id)) ==> Confidence(log, id) == 0.0
  {
    if log != [] {
      NoHint(log[..|log| - 1], id);
    }
  }
}

/** What the counting loops over moves and pairs come to. */
module CountFormulas {
  import opened Wrappers
  import opened Tallies
  import opened TransitionDatabase
  import opened ProductFormulas
  import Matrices

  lemma {:induction false} CountAppend<K>(a: seq<K>, b: seq<K>, k: K)
    ensures Count(a + b, k) == Count(a, k) + Count(b, k)
  {
    if b == [] {
      assert a + b == a;
    } else {
      CountAppend(a, b[..|b| - 1], k);
      assert (a + b)[..|a + b| - 1] == a + b[..|b| - 1];
    }
  }

  /** Between two selections every move is counted as often as its two ends
      meet. */
  lemma {:induction false} CrossedCount(from: seq<Selection>, to: seq<Selection>, a: Selection, b: Selection)
    ensures Count(Crossed(from, to), (a, b)) == Count(from, a) * Count(to, b)
  {
    if from != [] {
      var n := |from| - 1;
      CrossedCount(from[..n], to, a, b);
      CountAppend(Crossed(from[..n], to), Row(from[n], to), (a, b));
      RowCount(from[n], to, |to|, a, b);
      assert Row(from[n], to)[..|to|] == Row(from[n], to) && to[..|to|] == to;
      OneMore(Count(from[..n], a), Count(to, b));
      assert Count(from, a) == Count(from[..n], a) + if from[n] == a then 1 else 0;
      hide Count, Row;
    } else {
      NoneTimes(Count(to, b));
    }
  }

  lemma {:induction false} OneMore(x: nat, y: nat)
    ensures (x + 1) * y == x * y + y
  {
  }

  lemma {:induction false} NoneTimes(y: nat)
    ensures 0 * y == 0
  {
  }

  lemma {:induction false} RowCount(from: Selection, to: seq<Selection>, n: nat, a: Selection, b: Selection)
    requires n <= |to|
    ensures Count(Row(from, to)[..n], (a, b)) == if from == a then Count(to[..n], b) else 0
  {
    if n > 0 {
      RowCount(from, to, n - 1, a, b);
      assert Row(from, to)[..n][..n - 1] == Row(from, to)[..n - 1] && to[..n][..n - 1] == to[..n - 1];
    }
  }

  /** The pairs of one place with all later ones. */
  lemma {:induction false} PairsOfCount(current: seq<Selection>, left: nat, m: nat, a: Selection, b: Selection)
    requires left < |current| && m <= |current| - left - 1
    ensures Count(PairsOf(current, left)[..m], (a, b)) ==
      var later := current[left + 1..left + 1 + m];
      if Less(a, b) then (if current[left] == a then Count(later, b) else if current[left] == b then Count(later, a) else 0)
      else if a == b then (if current[left] == a then Count(later, a) else 0)
      else 0
  {
    if m > 0 {
      PairsOfCount(current, left, m - 1, a, b);
      var pairs, later := PairsOf(current, left), current[left + 1..left + 1 + m];
      assert pairs[..m][..m - 1] == pairs[..m - 1] && later[..m - 1] == current[left + 1..left + m];
      assert pairs[m - 1] == OrderedPair(current[left], current[left + m]) && later[m - 1] == current[left + m];
      LessTotal(a, b, current[left], current[left + m]);
    }
  }

  lemma {:induction false} LessTotal(a: Selection, b: Selection, x: Selection, y: Selection)
    ensures Less(a, b) ==> !Less(b, a) && a != b
    ensures !Less(a, b) && !Less(b, a) ==> a == b
    ensures OrderedPair(x, y) == (a, b) <==>
      (Less(a, b) && ((x == a && y == b) || (x == b && y == a))) || (a == b && x == a && y == a)
  {
  }

  lemma {:induction false} CountFrom(current: seq<Selection>, left: nat, k: Selection)
    requires left < |current|
    ensures Count(current[left..], k) == Count(current[left + 1..], k) + if current[left] == k then 1 else 0
  {
    assert current[left..] == [current[left]] + current[left + 1..];
    CountAppend([current[left]], current[left + 1..], k);
    assert [current[left]][..0] == [];
  }

  /** The pairs of the places before some point with all later ones: every
      pair but those that lie wholly behind it. */
  predicate PairsSoFar(a: Selection, b: Selection, pairs: int, all: nat, every: nat, x: nat, y: nat) {
    && (Less(a, b) ==> pairs == all * every - x * y)
    && (a == b ==> 2 * pairs == all * (all - 1) - x * (x - 1))
    && (Less(b, a) ==> pairs == 0)
  }

  lemma {:induction false} PairsStep(a: Selection, b: Selection, pairs: int, all: nat, every: nat, x: nat, y: nat,
                                     first: bool, second: bool)
    requires PairsSoFar(a, b, pairs, all, every, if first then x + 1 else x, if second then y + 1 else y)
    requires if a == b then first == second && x == y else !(first && second)
    ensures PairsSoFar(a, b, pairs + (if Less(a, b) then (if first then y else if second then x else 0)
                                      else if a == b && first then x else 0), all, every, x, y)
  {
    LessTotal(a, b, a, b);
    LessTotal(b, a, a, b);
    assert (x + 1) * y == x * y + y && x * (y + 1) == x * y + x && (x + 1) * x == x * (x - 1) + 2 * x;
  }

  lemma {:induction false} PairsBelow(current: seq<Selection>, n: nat, a: Selection, b: Selection)
    requires n <= |current|
    ensures PairsSoFar(a, b, Count(AllPairs(current, n), (a, b)), Count(current, a), Count(current, b),
                       Count(current[n..], a), Count(current[n..], b))
  {
    hide Count, Less, AllPairs, PairsOf, OrderedPair, PairsSoFar;
    if n == 0 {
      NoPairsYet(current, a, b);
    } else {
      PairsBelow(current, n - 1, a, b);
      OnePlaceMore(current, n, a, b);
      CountFrom(current, n - 1, a);
      CountFrom(current, n - 1, b);
      PairsStep(a, b, Count(AllPairs(current, n - 1), (a, b)), Count(current, a), Count(current, b),
                Count(current[n..], a), Count(current[n..], b), current[n - 1] == a, current[n - 1] == b);
    }
  }

  lemma {:induction false} NoPairsYet(current: seq<Selection>, a: Selection, b: Selection)
    ensures PairsSoFar(a, b, Count(AllPairs(current, 0), (a, b)), Count(current, a), Count(current, b),
                       Count(current[0..], a), Count(current[0..], b))
  {
    assert current[0..] == current;
    LessTotal(a, b, a, b);
  }

  lemma {:induction false} OnePlaceMore(current: seq<Selection>, n: nat, a: Selection, b: Selection)
    requires 0 < n <= |current|
    ensures Count(AllPairs(current, n), (a, b)) == Count(AllPairs(current, n - 1), (a, b)) +
      var at := current[n - 1];
      if Less(a, b) then (if at == a then Count(current[n..], b) else if at == b then Count(current[n..], a) else 0)
      else if a == b && at == a then Count(current[n..], a) else 0
  {
    var pairs := PairsOf(current, n - 1);
    assert AllPairs(current, n) == AllPairs(current, n - 1) + pairs;
    hide Count, Less, AllPairs, PairsOf, OrderedPair;
    CountAppend(AllPairs(current, n - 1), pairs, (a, b));
    PairsOfCount(current, n - 1, |pairs|, a, b);
    assert pairs[..|pairs|] == pairs && current[n..n + |pairs|] == current[n..];
  }

  /** In one selection, every unordered pair of different experts is counted as
      often as the two meet, and an expert with itself once for every two of
      its places. */
  lemma {:induction false} PairsCount(current: seq<Selection>, a: Selection, b: Selection)
    ensures Less(a, b) ==> Count(AllPairs(current, |current|), (a, b)) == Count(current, a) * Count(current, b)
    ensures a == b ==> 2 * Count(AllPairs(current, |current|), (a, b)) == Count(current, a) * (Count(current, a) - 1)
    ensures Less(b, a) ==> Count(AllPairs(current, |current|), (a, b)) == 0
  {
    PairsBelow(current, |current|, a, b);
    assert current[|current|..] == [];
  }

  // ---- over the log ----

  /** Occurrences, tallied and decayed. */
  lemma {:induction false} CountIs<K>(keys: seq<K>, k: K)
    ensures Count(keys, k) == |set i | 0 <= i < |keys| && keys[i] == k|
  {
    if keys != [] {
      CountIs(keys[..|keys| - 1], k);
      OnePlace(keys, k);
    }
  }

  lemma {:induction false} OnePlace<K>(keys: seq<K>, k: K)
    requires keys != []
    ensures var n := |keys| - 1;
      |set i | 0 <= i < |keys| && keys[i] == k|
      == |set i | 0 <= i < n && keys[..n][i] == k| + if keys[n] == k then 1 else 0
  {
    var n := |keys| - 1;
    assert forall i | 0 <= i < n :: keys[..n][i] == keys[i];
    assert (set i | 0 <= i < |keys| && keys[i] == k)
        == (set i | 0 <= i < n && keys[..n][i] == k) + if keys[n] == k then {n} else {};
  }

  lemma {:induction false} TallyIs<K>(lists: seq<seq<K>>, k: K, terms: seq<real>)
    requires |terms| == |lists| && forall i | 0 <= i < |lists| :: terms[i] == Count(lists[i], k) as real
    ensures SumsTo(terms, Tally(lists, k) as real)
  {
    TallySum(lists, k, terms);
    SumIs(terms, Tally(lists, k) as real);
  }

  lemma {:induction false} TallySum<K>(lists: seq<seq<K>>, k: K, terms: seq<real>)
    requires |terms| == |lists| && forall i | 0 <= i < |lists| :: terms[i] == Count(lists[i], k) as real
    ensures Tally(lists, k) as real == Matrices.Sum(terms)
  {
    if lists != [] {
      var n := |lists| - 1;
      TallySum(lists[..n], k, terms[..n]);
    }
  }

  /** An occurrence counts the decay factor to the power of its age. */
  lemma {:induction false} DecayedIs<K>(lists: seq<seq<K>>, k: K, d: real, now: nat, terms: seq<real>)
    requires |terms| == |lists| <= now
    requires forall i | 0 <= i < |lists| :: terms[i] == Count(lists[i], k) as real * Pow(d, now - i)
    ensures SumsTo(terms, DecayedTally(lists, k, d, now))
  {
    DecayedSum(lists, k, d, now, terms);
    SumIs(terms, DecayedTally(lists, k, d, now));
  }

  lemma {:induction false} DecayedSum<K>(lists: seq<seq<K>>, k: K, d: real, now: nat, terms: seq<real>)
    requires |terms| == |lists| <= now
    requires forall i | 0 <= i < |lists| :: terms[i] == Count(lists[i], k) as real * Pow(d, now - i)
    ensures DecayedTally(lists, k, d, now) == Matrices.Sum(terms)
  {
    if lists != [] {
      var n := |lists| - 1;
      hide Pow, Count;
      DecayedSum(lists[..n], k, d, now, terms[..n]);
    }
  }

  lemma {:induction false} WindowIs<T>(s: seq<T>, n: nat, i: nat)
    ensures |LastOf(s, n)| == if |s| < n then |s| else n
    ensures i < |LastOf(s, n)| ==> LastOf(s, n)[i] == s[|s| - |LastOf(s, n)| + i]
  {
  }

  /** What a stream remembers: its last selections, unless it has ended since. */
  lemma {:induction false} PreviousIs(log: seq<Event>, n: nat, stream: nat)
    requires n < |log| && log[n].stream == stream
    requires forall i | n < i < |log| :: log[i].stream != stream
    ensures PreviousOf(log, stream) == if log[n].Recorded? then Some(log[n].current) else None
  {
    if n < |log| - 1 {
      PreviousIs(log[..|log| - 1], n, stream);
    }
  }

  lemma {:induction false} NoPrevious(log: seq<Event>, stream: nat)
    requires forall i | 0 <= i < |log| :: log[i].stream != stream
    ensures PreviousOf(log, stream) == None
  {
    if log != [] {
      NoPrevious(log[..|log| - 1], stream);
    }
  }

  /** Every recorded decision is one observation, in order: its selections, the
      moves from what its stream remembered, the pairs within it. */
  lemma {:induction false} ObservationIs(log: seq<Event>, n: nat, stream: nat, current: seq<Selection>)
    requires n < |log| && log[n] == Recorded(stream, current)
    ensures var i := |set j | 0 <= j < n && log[j].Recorded?|;
      && i < |Selections(log)| == |Moves(log)| == |Pairs(log)|
      && Selections(log)[i] == current
      && Moves(log)[i] == (match PreviousOf(log[..n], stream)
                           case Some(previous) => Crossed(previous, current)
                           case None => [])
      && Pairs(log)[i] == AllPairs(current, |current|)
  {
    hide Crossed, AllPairs, PreviousOf;
    var k := |log| - 1;
    ObservationsAre(log);
    if n < k {
      ObservationIs(log[..k], n, stream, current);
      assert log[..k][..n] == log[..n];
      assert (set j | 0 <= j < n && log[..k][j].Recorded?) == (set j | 0 <= j < n && log[j].Recorded?);
    } else {
      ObservationsAre(log[..n]);
      assert (set j | 0 <= j < n && log[..n][j].Recorded?) == (set j | 0 <= j < n && log[j].Recorded?);
      NothingCrossed(current);
    }
  }

  lemma {:induction false} NothingCrossed(current: seq<Selection>)
    ensures Crossed([], current) == []
  {
  }

  lemma {:induction false} ObservationsAre(log: seq<Event>)
    ensures |Selections(log)| == |Moves(log)| == |Pairs(log)| == |set j | 0 <= j < |log| && log[j].Recorded?|
  {
    hide Crossed, AllPairs, PreviousOf, PreviousOr, Moves, Selections, Pairs;
    if log == [] {
      NoObservations();
    } else {
      var k := |log| - 1;
      ObservationsAre(log[..k]);
      OneEventMore(log);
      RecordedMore(log);
    }
  }

  lemma {:induction false} NoObservations()
    ensures Selections([]) == [] && Moves([]) == [] && Pairs([]) == []
  {
  }

  lemma {:induction false} OneEventMore(log: seq<Event>)
    requires log != []
    ensures var before, one := log[..|log| - 1], if log[|log| - 1].Recorded? then 1 else 0;
      |Selections(log)| == |Selections(before)| + one && |Pairs(log)| == |Pairs(before)| + one
  {
    hide Crossed, AllPairs, PreviousOf, PreviousOr, Moves;
  }

  lemma {:induction false} RecordedMore(log: seq<Event>)
    requires log != []
    ensures var k := |log| - 1;
      |set j | 0 <= j < |log| && log[j].Recorded?|
      == |set j | 0 <= j < k && log[..k][j].Recorded?| + if log[k].Recorded? then 1 else 0
  {
    hide Crossed, AllPairs, PreviousOf, PreviousOr, Moves, Selections, Pairs;
    var k := |log| - 1;
    assert (set j | 0 <= j < |log| && log[j].Recorded?)
        == (set j | 0 <= j < k && log[..k][j].Recorded?) + if log[k].Recorded? then {k} else {};
  }
}
