/**
Online routing statistics (src/prediction/TransitionDatabase.cpp) against the
full log of calls: counters that are kept incrementally and decayed lazily
must always agree with sums over everything that was ever recorded.
 */
module Tallies {

  function Count<K(==)>(keys: seq<K>, k: K): nat {
    if keys == [] then 0 else Count(keys[..|keys| - 1], k) + if keys[|keys| - 1] == k then 1 else 0
  }

  lemma {:induction false} CountPush<K>(keys: seq<K>, x: K, k: K)
    ensures Count(keys + [x], k) == Count(keys, k) + if x == k then 1 else 0
  {
    assert (keys + [x])[..|keys|] == keys;
  }

  lemma {:induction false} CountZero<K>(keys: seq<K>, k: K)
    ensures Count(keys, k) > 0 <==> k in keys
  {
    if keys != [] {
      CountZero(keys[..|keys| - 1], k);
      assert keys == keys[..|keys| - 1] + [keys[|keys| - 1]];
    }
  }

  /** How often a key occurs in a log of key lists. */
  function Tally<K(==)>(lists: seq<seq<K>>, k: K): nat {
    if lists == [] then 0 else Tally(lists[..|lists| - 1], k) + Count(lists[|lists| - 1], k)
  }

  lemma {:induction false} TallyPush<K>(lists: seq<seq<K>>, l: seq<K>, k: K)
    ensures Tally(lists + [l], k) == Tally(lists, k) + Count(l, k)
  {
    assert (lists + [l])[..|lists|] == lists;
  }

  /** A product that proofs can keep closed. */
  function Times(x: real, y: real): real {
    x * y
  }

  lemma {:induction false} TimesLaws(d: real, x: real, c: real, p: real)
    ensures Times(d, x) + Times(c, Times(d, p)) == Times(d, x + Times(c, p))
    ensures Times(d, Times(x, p)) == Times(Times(d, x), p)
    ensures Times(d, x + c) == Times(d, x) + Times(c, d)
    ensures Times(x, Times(d, p)) == Times(d, Times(x, p))
    ensures Times(d, 0.0) == 0.0 && Times(d, 1.0) == d && Times(1.0, d) == d
  {
  }

  function Pow(d: real, n: nat): real {
    if n == 0 then 1.0 else Times(d, Pow(d, n - 1))
  }

  lemma {:induction false} PowAdd(d: real, m: nat, n: nat)
    ensures Pow(d, m + n) == Times(Pow(d, m), Pow(d, n))
  {
    hide Times;
    if m > 0 {
      PowAdd(d, m - 1, n);
      TimesLaws(d, Pow(d, m - 1), 0.0, Pow(d, n));
    } else {
      TimesLaws(Pow(d, n), 0.0, 0.0, 0.0);
    }
  }

  /** Every occurrence weighted by its age: an occurrence in list i counts
      d to the power of now - i. */
  function DecayedTally<K(==)>(lists: seq<seq<K>>, k: K, d: real, now: nat): real
    requires |lists| <= now
  {
    if lists == [] then 0.0
    else
      var n := |lists| - 1;
      DecayedTally(lists[..n], k, d, now) + Times(Count(lists[n], k) as real, Pow(d, now - n))
  }

  lemma {:induction false} DecayedTallyAges<K>(lists: seq<seq<K>>, k: K, d: real, now: nat)
    requires |lists| <= now
    ensures DecayedTally(lists, k, d, now + 1) == Times(d, DecayedTally(lists, k, d, now))
  {
    hide Times;
    TimesLaws(d, 0.0, 0.0, 0.0);
    if lists != [] {
      var n := |lists| - 1;
      DecayedTallyAges(lists[..n], k, d, now);
      TimesLaws(d, DecayedTally(lists[..n], k, d, now), Count(lists[n], k) as real, Pow(d, now - n));
    }
  }

  // ---- incremental counters ----

  function Get<K>(m: map<K, nat>, k: K): nat {
    if k in m then m[k] else 0
  }

  function Bump<K(!new)>(m: map<K, nat>, k: K): (r: map<K, nat>)
    ensures forall j :: Get(r, j) == Get(m, j) + if j == k then 1 else 0
    ensures r.Keys == m.Keys + {k}
  {
    m[k := Get(m, k) + 1]
  }

  datatype Counter = Counter(value: real, last: nat)

  /** The lazily decayed value of a counter now. */
  function Value<K>(m: map<K, Counter>, k: K, d: real, now: nat): real {
    if k in m && m[k].last <= now then Times(m[k].value, Pow(d, now - m[k].last)) else 0.0
  }

  predicate Stamped<K(!new)>(m: map<K, Counter>, now: nat) {
    forall k | k in m :: m[k].last <= now
  }

  /** An increment brings the value up to date, adds one and stamps it. */
  function Increment<K(!new)>(m: map<K, Counter>, k: K, d: real, now: nat): (r: map<K, Counter>)
    requires Stamped(m, now)
    ensures Stamped(r, now)
    ensures forall j :: Value(r, j, d, now) == Value(m, j, d, now) + if j == k then 1.0 else 0.0
  {
    m[k := Counter(Value(m, k, d, now) + 1.0, now)]
  }

  lemma {:induction false} ValueAges<K>(m: map<K, Counter>, k: K, d: real, now: nat)
    requires k in m ==> m[k].last <= now
    ensures Value(m, k, d, now + 1) == Times(d, Value(m, k, d, now))
  {
    hide Times;
    TimesLaws(d, if k in m then m[k].value else 0.0, 0.0, if k in m then Pow(d, now - m[k].last) else 0.0);
  }

  /** Counters that agree with a log: exact counts, and decayed ones. */
  ghost predicate Agrees<K(!new)>(counts: map<K, nat>, decayed: map<K, Counter>, lists: seq<seq<K>>, d: real) {
    && (forall k :: Get(counts, k) == Tally(lists, k))
    && (forall k | k in counts :: counts[k] > 0)
    && Stamped(decayed, |lists|)
    && (forall k :: Value(decayed, k, d, |lists|) == DecayedTally(lists, k, d, |lists|))
  }

  function Members<K>(keys: seq<K>): set<K> {
    set k | k in keys
  }

  /** The keys of one observation counted in: what has been counted so far. */
  ghost predicate CountedIn<K(!new)>(counts: map<K, nat>, decayed: map<K, Counter>, counts0: map<K, nat>,
                                     decayed0: map<K, Counter>, keys: seq<K>, d: real, now: nat) {
    && (forall k :: Get(counts, k) == Get(counts0, k) + Count(keys, k))
    && counts.Keys == counts0.Keys + Members(keys)
    && Stamped(decayed, now)
    && (forall k :: Value(decayed, k, d, now) == Value(decayed0, k, d, now) + Count(keys, k) as real)
  }

  lemma {:induction false} CountOne<K(!new)>(counts: map<K, nat>, decayed: map<K, Counter>, counts0: map<K, nat>,
                                             decayed0: map<K, Counter>, keys: seq<K>, x: K, d: real, now: nat)
    requires CountedIn(counts, decayed, counts0, decayed0, keys, d, now)
    ensures CountedIn(Bump(counts, x), Increment(decayed, x, d, now), counts0, decayed0, keys + [x], d, now)
  {
    hide Value, Get;
    forall k ensures Count(keys + [x], k) == Count(keys, k) + if x == k then 1 else 0 {
      CountPush(keys, x, k);
    }
  }

  /** One observation later, the counters agree with the longer log. */
  lemma {:induction false} AgreesNext<K(!new)>(counts: map<K, nat>, decayed: map<K, Counter>, counts0: map<K, nat>,
                                               decayed0: map<K, Counter>, lists: seq<seq<K>>, keys: seq<K>, d: real)
    requires Agrees(counts0, decayed0, lists, d)
    requires CountedIn(counts, decayed, counts0, decayed0, keys, d, |lists|)
    ensures Agrees(counts, decayed, lists + [keys], d)
  {
    var n := |lists|;
    forall k
      ensures Get(counts, k) == Tally(lists + [keys], k)
      ensures Value(decayed, k, d, n + 1) == DecayedTally(lists + [keys], k, d, n + 1)
    {
      TallyPush(lists, keys, k);
      OneLater(decayed, decayed0, lists, keys, k, d);
    }
    forall k | k in counts ensures counts[k] > 0 {
      CountZero(keys, k);
      assert Get(counts, k) == Get(counts0, k) + Count(keys, k);
    }
  }

  lemma {:induction false} OneLater<K(!new)>(decayed: map<K, Counter>, decayed0: map<K, Counter>, lists: seq<seq<K>>,
                                             keys: seq<K>, k: K, d: real)
    requires k in decayed ==> decayed[k].last <= |lists|
    requires Value(decayed, k, d, |lists|) == DecayedTally(lists, k, d, |lists|) + Count(keys, k) as real
    ensures Value(decayed, k, d, |lists| + 1) == DecayedTally(lists + [keys], k, d, |lists| + 1)
  {
    hide Times, Value, Count;
    var n := |lists|;
    ValueAges(decayed, k, d, n);
    DecayedTallyAges(lists, k, d, n);
    assert (lists + [keys])[..n] == lists;
    TimesLaws(d, DecayedTally(lists, k, d, n), Count(keys, k) as real, 0.0);
    assert Pow(d, 1) == Times(d, Pow(d, 0)) == d;
  }
}

/** The database, its log, and the statistics it hands to the predictor. */
module TransitionDatabase {
  import opened Wrappers
  import opened Tallies

  datatype Selection = Selection(layer: nat, expert: nat)

  type Move = (Selection, Selection)

  /** The calls that change the database. */
  datatype Event = Recorded(stream: nat, current: seq<Selection>) | Ended(stream: nat)

  function Less(a: Selection, b: Selection): bool {
    a.layer < b.layer || (a.layer == b.layer && a.expert < b.expert)
  }

  function OrderedPair(a: Selection, b: Selection): Move {
    if Less(b, a) then (b, a) else (a, b)
  }

  // ---- what the log says ----

  /** The selections of each observation. */
  function Selections(log: seq<Event>): seq<seq<Selection>> {
    if log == [] then []
    else match log[|log| - 1]
      case Recorded(_, current) => Selections(log[..|log| - 1]) + [current]
      case Ended(_) => Selections(log[..|log| - 1])
  }

  /** The last selections of a stream, unless it has ended since. */
  function PreviousOf(log: seq<Event>, stream: nat): Option<seq<Selection>> {
    if log == [] then None
    else if log[|log| - 1].stream != stream then PreviousOf(log[..|log| - 1], stream)
    else match log[|log| - 1]
      case Recorded(_, current) => Some(current)
      case Ended(_) => None
  }

  /** One row of moves: from one selection to each of the next. */
  function Row(from: Selection, to: seq<Selection>): (r: seq<Move>)
    ensures |r| == |to|
  {
    seq(|to|, j requires 0 <= j < |to| => (from, to[j]))
  }

  function Crossed(from: seq<Selection>, to: seq<Selection>): seq<Move> {
    if from == [] then [] else Crossed(from[..|from| - 1], to) + Row(from[|from| - 1], to)
  }

  /** The moves of each observation: from the stream's previous selections to
      its current ones. */
  function Moves(log: seq<Event>): (r: seq<seq<Move>>)
    ensures |r| == |Selections(log)|
  {
    if log == [] then []
    else match log[|log| - 1]
      case Recorded(stream, current) =>
        var before := log[..|log| - 1];
        Moves(before) + [Crossed(PreviousOr(before, stream), current)]
      case Ended(_) => Moves(log[..|log| - 1])
  }

  function PreviousOr(log: seq<Event>, stream: nat): seq<Selection> {
    match PreviousOf(log, stream)
    case Some(previous) => previous
    case None => []
  }

  /** The pairs of position left with every later position. */
  function PairsOf(current: seq<Selection>, left: nat): (r: seq<Move>)
    requires left < |current|
    ensures |r| == |current| - left - 1
  {
    seq(|current| - left - 1, j requires 0 <= j < |current| - left - 1 =>
      OrderedPair(current[left], current[left + 1 + j]))
  }

  function AllPairs(current: seq<Selection>, n: nat): seq<Move>
    requires n <= |current|
  {
    if n == 0 then [] else AllPairs(current, n - 1) + PairsOf(current, n - 1)
  }

  function Pairs(log: seq<Event>): seq<seq<Move>> {
    if log == [] then []
    else match log[|log| - 1]
      case Recorded(_, current) => Pairs(log[..|log| - 1]) + [AllPairs(current, |current|)]
      case Ended(_) => Pairs(log[..|log| - 1])
  }

  function LastOf<T>(s: seq<T>, n: nat): seq<T> {
    if |s| <= n then s else s[|s| - n..]
  }

  // ---- counting loops ----

  method CountExperts(counts: map<Selection, nat>, decayed: map<Selection, Counter>, current: seq<Selection>,
                      d: real, now: nat)
    returns (counts': map<Selection, nat>, decayed': map<Selection, Counter>)
    requires Stamped(decayed, now)
    ensures CountedIn(counts', decayed', counts, decayed, current, d, now)
  {
    counts', decayed' := counts, decayed;
    for i := 0 to |current|
      invariant CountedIn(counts', decayed', counts, decayed, current[..i], d, now)
    {
      CountOne(counts', decayed', counts, decayed, current[..i], current[i], d, now);
      hide CountedIn, Value;
      counts', decayed' := Bump(counts', current[i]), Increment(decayed', current[i], d, now);
      assert current[..i + 1] == current[..i] + [current[i]];
    }
    assert current[..|current|] == current;
  }

  lemma {:induction false} CrossedStep(previous: seq<Selection>, i: nat, current: seq<Selection>)
    requires i < |previous|
    ensures Crossed(previous[..i + 1], current) == Crossed(previous[..i], current) + Row(previous[i], current)
  {
    assert previous[..i + 1][..i] == previous[..i];
  }

  lemma {:induction false} StampedIn<K(!new)>(counts: map<K, nat>, decayed: map<K, Counter>, counts0: map<K, nat>,
                                              decayed0: map<K, Counter>, keys: seq<K>, d: real, now: nat)
    requires CountedIn(counts, decayed, counts0, decayed0, keys, d, now)
    ensures Stamped(decayed, now)
  {
  }

  /** Crossing one more earlier selection counts its row, one move at a time. */
  lemma {:induction false} MoveStep(counts: map<Move, nat>, decayed: map<Move, Counter>, counts0: map<Move, nat>,
                                    decayed0: map<Move, Counter>, done: seq<Move>, row: seq<Move>, j: nat, d: real,
                                    now: nat)
    requires j < |row| && CountedIn(counts, decayed, counts0, decayed0, done + row[..j], d, now)
    ensures Stamped(decayed, now)
    ensures CountedIn(Bump(counts, row[j]), Increment(decayed, row[j], d, now), counts0, decayed0, done + row[..j + 1],
                      d, now)
  {
    CountOne(counts, decayed, counts0, decayed0, done + row[..j], row[j], d, now);
    StampedIn(counts, decayed, counts0, decayed0, done + row[..j], d, now);
    hide CountedIn, Value, Get, Stamped;
    assert done + row[..j + 1] == done + row[..j] + [row[j]];
  }

  method CountMoves(counts: map<Move, nat>, decayed: map<Move, Counter>, previous: seq<Selection>,
                    current: seq<Selection>, d: real, now: nat)
    returns (counts': map<Move, nat>, decayed': map<Move, Counter>)
    requires Stamped(decayed, now)
    ensures CountedIn(counts', decayed', counts, decayed, Crossed(previous, current), d, now)
  {
    counts', decayed' := counts, decayed;
    for i := 0 to |previous|
      invariant CountedIn(counts', decayed', counts, decayed, Crossed(previous[..i], current), d, now)
    {
      hide CountedIn, Value, Crossed, Get, Stamped;
      ghost var done, row := Crossed(previous[..i], current), Row(previous[i], current);
      assert done + row[..0] == done;
      for j := 0 to |current|
        invariant CountedIn(counts', decayed', counts, decayed, done + row[..j], d, now)
      {
        MoveStep(counts', decayed', counts, decayed, done, row, j, d, now);
        counts' := Bump(counts', (previous[i], current[j]));
        decayed' := Increment(decayed', (previous[i], current[j]), d, now);
      }
      assert row[..|current|] == row;
      CrossedStep(previous, i, current);
    }
    assert previous[..|previous|] == previous;
  }

  /** Only exact counts, for pairs. */
  ghost predicate TalliedIn(counts: map<Move, nat>, counts0: map<Move, nat>, keys: seq<Move>) {
    && (forall k :: Get(counts, k) == Get(counts0, k) + Count(keys, k))
    && (forall k | k in counts :: k in counts0 || counts[k] > 0)
  }

  lemma {:induction false} TallyOne(counts: map<Move, nat>, counts0: map<Move, nat>, keys: seq<Move>, x: Move)
    requires TalliedIn(counts, counts0, keys)
    ensures TalliedIn(Bump(counts, x), counts0, keys + [x])
  {
    forall k ensures Count(keys + [x], k) == Count(keys, k) + if x == k then 1 else 0 {
      CountPush(keys, x, k);
    }
  }

  method CountPairs(counts: map<Move, nat>, current: seq<Selection>) returns (counts': map<Move, nat>)
    ensures TalliedIn(counts', counts, AllPairs(current, |current|))
  {
    counts' := counts;
    for left := 0 to |current|
      invariant TalliedIn(counts', counts, AllPairs(current, left))
    {
      hide TalliedIn;
      ghost var done, row := AllPairs(current, left), PairsOf(current, left);
      assert done + row[..0] == done;
      for right := left + 1 to |current|
        invariant TalliedIn(counts', counts, done + row[..right - left - 1])
      {
        var pair := OrderedPair(current[left], current[right]);
        TallyOne(counts', counts, done + row[..right - left - 1], pair);
        counts' := Bump(counts', pair);
        assert row[right - left - 1] == pair;
        assert done + row[..right - left] == done + row[..right - left - 1] + [pair];
      }
      assert row[..|current| - left - 1] == row;
    }
  }

  method NextExperts(counts: map<Selection, nat>, decayed: map<Selection, Counter>, ghost lists: seq<seq<Selection>>,
                     current: seq<Selection>, d: real, now: nat)
    returns (counts': map<Selection, nat>, decayed': map<Selection, Counter>)
    requires Agrees(counts, decayed, lists, d) && now == |lists|
    ensures Agrees(counts', decayed', lists + [current], d)
  {
    AgreesStamped(counts, decayed, lists, d);
    hide Agrees, CountedIn, Stamped;
    counts', decayed' := CountExperts(counts, decayed, current, d, now);
    AgreesNext(counts', decayed', counts, decayed, lists, current, d);
  }

  method NextMoves(counts: map<Move, nat>, decayed: map<Move, Counter>, ghost lists: seq<seq<Move>>,
                   previous: seq<Selection>, current: seq<Selection>, d: real, now: nat)
    returns (counts': map<Move, nat>, decayed': map<Move, Counter>)
    requires Agrees(counts, decayed, lists, d) && now == |lists|
    ensures Agrees(counts', decayed', lists + [Crossed(previous, current)], d)
  {
    AgreesStamped(counts, decayed, lists, d);
    hide Agrees, CountedIn, Stamped;
    counts', decayed' := CountMoves(counts, decayed, previous, current, d, now);
    AgreesNext(counts', decayed', counts, decayed, lists, Crossed(previous, current), d);
  }

  method NextPairs(counts: map<Move, nat>, ghost lists: seq<seq<Move>>, current: seq<Selection>)
    returns (counts': map<Move, nat>)
    requires Exact(counts, lists)
    ensures Exact(counts', lists + [AllPairs(current, |current|)])
  {
    hide Exact, TalliedIn;
    counts' := CountPairs(counts, current);
    PairsNext(counts', counts, lists, AllPairs(current, |current|));
  }

  /** The bounded window: a push, then pops from the front while it is too long. */
  method PushRecent<T>(recent: seq<T>, current: T, window: nat) returns (r: seq<T>)
    ensures r == LastOf(recent + [current], window)
  {
    hide LastOf;
    r := recent + [current];
    while |r| > window
      invariant LastOf(r, window) == LastOf(recent + [current], window)
    {
      ShorterWindow(r, window);
      r := r[1..];
    }
    WholeWindow(r, window);
  }

  ghost predicate Exact(counts: map<Move, nat>, lists: seq<seq<Move>>) {
    && (forall k :: Get(counts, k) == Tally(lists, k))
    && (forall k | k in counts :: counts[k] > 0)
  }

  /** The table of previous selections is what the log says of every stream. */
  ghost predicate Remembers(previous: map<nat, seq<Selection>>, log: seq<Event>) {
    forall s: nat :: PreviousOf(log, s) == if s in previous then Some(previous[s]) else None
  }

  class Database {
    const recentWindow: nat
    const decayFactor: real
    var observations: nat
    var frequency: map<Selection, nat>
    var decayedFrequency: map<Selection, Counter>
    var transitions: map<Move, nat>
    var decayedTransitions: map<Move, Counter>
    var cooccurrence: map<Move, nat>
    var previousByStream: map<nat, seq<Selection>>
    var recent: seq<seq<Selection>>
    ghost var log: seq<Event>

    /** Every table agrees with the whole log. */
    ghost predicate Valid()
      reads this
    {
      && recentWindow > 0
      && observations == |Selections(log)|
      && Agrees(frequency, decayedFrequency, Selections(log), decayFactor)
      && Agrees(transitions, decayedTransitions, Moves(log), decayFactor)
      && Exact(cooccurrence, Pairs(log))
      && Remembers(previousByStream, log)
      && recent == LastOf(Selections(log), recentWindow)
    }

    constructor (recentWindow: nat, decayFactor: real)
      requires recentWindow > 0 && 0.0 < decayFactor <= 1.0
      ensures Valid() && log == [] && this.recentWindow == recentWindow && this.decayFactor == decayFactor
    {
      this.recentWindow, this.decayFactor := recentWindow, decayFactor;
      observations, frequency, decayedFrequency, transitions, decayedTransitions := 0, map[], map[], map[], map[];
      cooccurrence, previousByStream, recent, log := map[], map[], [], [];
    }

    /** Record one decision; false where the source throws. */
    method Record(layer: nat, ids: seq<nat>, scores: nat, stream: nat) returns (ok: bool)
      requires Valid()
      modifies this
      ensures Valid()
      ensures ok <==> ids != [] && |ids| == scores
      ensures log == if ok
        then old(log) + [Recorded(stream, seq(|ids|, i requires 0 <= i < |ids| => Selection(layer, ids[i])))]
        else old(log)
    {
      if ids == [] || |ids| != scores {
        return false;
      }
      var current: seq<Selection> := [];
      for i := 0 to |ids|
        invariant current == seq(i, j requires 0 <= j < i => Selection(layer, ids[j]))
      {
        current := current + [Selection(layer, ids[i])];
      }
      hide Agrees, Selections, Moves, Pairs, PreviousOf, Crossed, AllPairs, CountedIn, TalliedIn, Exact, Remembers;
      RecordCurrent(current, stream);
      ok := true;
    }

    method RecordCurrent(current: seq<Selection>, stream: nat)
      requires Valid()
      modifies this
      ensures Valid() && log == old(log) + [Recorded(stream, current)]
    {
      hide Agrees, Selections, Moves, Pairs, PreviousOf, Crossed, AllPairs, Exact, Remembers, PreviousOr, LastOf;
      var previous := if stream in previousByStream then previousByStream[stream] else [];
      LogGrows(log, stream, current);
      RemembersMore(previousByStream, log, stream, current);
      var frequency', decayedFrequency' :=
        NextExperts(frequency, decayedFrequency, Selections(log), current, decayFactor, observations);
      var transitions', decayedTransitions' :=
        NextMoves(transitions, decayedTransitions, Moves(log), previous, current, decayFactor, observations);
      var cooccurrence' := NextPairs(cooccurrence, Pairs(log), current);
      var recent' := PushRecent(recent, current, recentWindow);
      WindowNext(Selections(log), current, recentWindow);
      frequency, decayedFrequency, transitions, decayedTransitions :=
        frequency', decayedFrequency', transitions', decayedTransitions';
      cooccurrence := cooccurrence';
      previousByStream := previousByStream[stream := current];
      recent := recent';
      observations := observations + 1;
      log := log + [Recorded(stream, current)];
    }

    method EndStream(stream: nat)
      requires Valid()
      modifies this
      ensures Valid() && log == old(log) + [Ended(stream)]
    {
      StreamEnds(previousByStream, log, stream);
      hide Agrees, Selections, Moves, Pairs, PreviousOf, Crossed, AllPairs, Exact, Remembers, LastOf;
      previousByStream := previousByStream - {stream};
      log := log + [Ended(stream)];
    }
  }

  datatype ConfigError = InvalidDatabaseConfig

  /** Construction with the source's check of window and decay factor. */
  method Make(recentWindow: nat, decayFactor: real) returns (r: Result<Database, ConfigError>)
    ensures r.Ok? <==> recentWindow > 0 && 0.0 < decayFactor <= 1.0
    ensures r.Ok? ==>
      && fresh(r.value) && r.value.Valid() && r.value.log == []
      && r.value.recentWindow == recentWindow && r.value.decayFactor == decayFactor
  {
    if recentWindow == 0 || decayFactor <= 0.0 || decayFactor > 1.0 {
      return Err(InvalidDatabaseConfig);
    }
    var db := new Database(recentWindow, decayFactor);
    r := Ok(db);
  }

  lemma {:induction false} AgreesStamped<K(!new)>(counts: map<K, nat>, decayed: map<K, Counter>, lists: seq<seq<K>>,
                                        d: real)
    requires Agrees(counts, decayed, lists, d)
    ensures Stamped(decayed, |lists|)
  {
  }

  lemma {:induction false} LogGrows(log: seq<Event>, stream: nat, current: seq<Selection>)
    ensures var longer := log + [Recorded(stream, current)];
      && Selections(longer) == Selections(log) + [current]
      && Moves(longer) == Moves(log) + [Crossed(PreviousOr(log, stream), current)]
      && Pairs(longer) == Pairs(log) + [AllPairs(current, |current|)]
  {
    assert (log + [Recorded(stream, current)])[..|log|] == log;
  }

  lemma {:induction false} RemembersMore(previous: map<nat, seq<Selection>>, log: seq<Event>, stream: nat,
                                         current: seq<Selection>)
    requires Remembers(previous, log)
    ensures Remembers(previous[stream := current], log + [Recorded(stream, current)])
    ensures PreviousOr(log, stream) == if stream in previous then previous[stream] else []
  {
    assert (log + [Recorded(stream, current)])[..|log|] == log;
  }

  lemma {:induction false} StreamEnds(previous: map<nat, seq<Selection>>, log: seq<Event>, stream: nat)
    requires Remembers(previous, log)
    ensures var longer := log + [Ended(stream)];
      && Selections(longer) == Selections(log) && Moves(longer) == Moves(log) && Pairs(longer) == Pairs(log)
      && Remembers(previous - {stream}, longer)
  {
    assert (log + [Ended(stream)])[..|log|] == log;
  }

  lemma {:induction false} PairsNext(counts: map<Move, nat>, counts0: map<Move, nat>, lists: seq<seq<Move>>,
                                     keys: seq<Move>)
    requires Exact(counts0, lists) && TalliedIn(counts, counts0, keys)
    ensures Exact(counts, lists + [keys])
  {
    forall k ensures Get(counts, k) == Tally(lists + [keys], k) {
      TallyPush(lists, keys, k);
    }
    forall k | k in counts ensures counts[k] > 0 {
      assert Get(counts, k) == Get(counts0, k) + Count(keys, k);
    }
  }

  lemma {:induction false} WindowNext<T>(s: seq<T>, x: T, n: nat)
    requires n > 0
    ensures LastOf(LastOf(s, n) + [x], n) == LastOf(s + [x], n)
  {
  }

  lemma {:induction false} ShorterWindow<T>(s: seq<T>, n: nat)
    requires |s| > n
    ensures LastOf(s[1..], n) == LastOf(s, n)
  {
  }

  lemma {:induction false} WholeWindow<T>(s: seq<T>, n: nat)
    requires |s| <= n
    ensures LastOf(s, n) == s
  {
  }

  // ---- statistics for the predictor ----

  function SumNat(s: seq<nat>): nat {
    if s == [] then 0 else SumNat(s[..|s| - 1]) + s[|s| - 1]
  }

  function SumReal(s: seq<real>): real {
    if s == [] then 0.0 else SumReal(s[..|s| - 1]) + s[|s| - 1]
  }

  lemma {:induction false} SumBump(s: seq<nat>, i: nat)
    requires i < |s|
    ensures SumNat(s[i := s[i] + 1]) == SumNat(s) + 1
  {
    var n := |s| - 1;
    if i == n {
      assert s[i := s[i] + 1][..n] == s[..n];
    } else {
      assert s[i := s[i] + 1][..n] == s[..n][i := s[..n][i] + 1];
      SumBump(s[..n], i);
    }
  }

  predicate Ascending(ids: seq<nat>) {
    forall i, j | 0 <= i < j < |ids| :: ids[i] < ids[j]
  }

  /** The candidates column by column: entry i of a column belongs to the i-th
      expert; incoming rows are indexed by source. */
  datatype Statistics = Statistics(
    experts: seq<nat>,
    frequency: seq<nat>,
    decayedFrequency: seq<real>,
    windowFrequency: seq<nat>,
    incoming: seq<seq<nat>>,
    decayedIncoming: seq<seq<real>>,
    cooccurrence: seq<map<nat, nat>>,
    layerFrequency: nat,
    decayedLayerFrequency: real,
    windowLayerFrequency: nat,
    outgoing: seq<nat>)

  /** Every column agrees with the log, and every total is the sum of its column. */
  ghost predicate Faithful(st: Statistics, log: seq<Event>, window: nat, d: real, layer: nat, sources: seq<Selection>) {
    var n, now := |st.experts|, |Selections(log)|;
    && |st.frequency| == |st.decayedFrequency| == |st.windowFrequency| == |st.cooccurrence| == n
    && |st.incoming| == |st.decayedIncoming| == |st.outgoing| == |sources|
    && Ascending(st.experts)
    && (forall e: nat :: e in st.experts <==> Tally(Selections(log), Selection(layer, e)) > 0)
    && (forall i | 0 <= i < n :: ExpertFaithful(st, log, window, d, layer, i))
    && (forall s | 0 <= s < |sources| :: SourceFaithful(st, log, d, layer, sources[s], s))
    && st.layerFrequency == SumNat(st.frequency)
    && st.decayedLayerFrequency == SumReal(st.decayedFrequency)
    && st.windowLayerFrequency == SumNat(st.windowFrequency)
  }

  ghost predicate ExpertFaithful(st: Statistics, log: seq<Event>, window: nat, d: real, layer: nat, i: nat)
    requires i < |st.experts| == |st.frequency| == |st.decayedFrequency| == |st.windowFrequency| == |st.cooccurrence|
  {
    var e, now := Selection(layer, st.experts[i]), |Selections(log)|;
    && st.frequency[i] == Tally(Selections(log), e)
    && st.decayedFrequency[i] == DecayedTally(Selections(log), e, d, now)
    && st.windowFrequency[i] == Tally(LastOf(Selections(log), window), e)
    && st.cooccurrence[i] == PeersOf(Pairs(log), st.experts, layer, i)
  }

  /** The other candidates that an expert has been selected together with. */
  ghost function PeersOf(pairs: seq<seq<Move>>, experts: seq<nat>, layer: nat, i: nat): map<nat, nat>
    requires i < |experts|
  {
    map p | p in experts && p != experts[i] && Tally(pairs, OrderedPair(Selection(layer, experts[i]), Selection(layer, p))) > 0
      :: Tally(pairs, OrderedPair(Selection(layer, experts[i]), Selection(layer, p)))
  }

  ghost predicate SourceFaithful(st: Statistics, log: seq<Event>, d: real, layer: nat, source: Selection, s: nat)
    requires s < |st.incoming| == |st.decayedIncoming| == |st.outgoing|
  {
    && |st.incoming[s]| == |st.decayedIncoming[s]| == |st.experts|
    && (forall i | 0 <= i < |st.experts| ::
          && st.incoming[s][i] == Tally(Moves(log), (source, Selection(layer, st.experts[i])))
          && st.decayedIncoming[s][i] ==
             DecayedTally(Moves(log), (source, Selection(layer, st.experts[i])), d, |Moves(log)|))
    && st.outgoing[s] == SumNat(st.incoming[s])
  }

  /** The experts of a layer in ascending order. */
  method ExpertsInLayer(frequency: map<Selection, nat>, layer: nat) returns (ids: seq<nat>)
    ensures Ascending(ids) && forall e: nat :: e in ids <==> Selection(layer, e) in frequency
  {
    ids := [];
    var rest := frequency.Keys;
    while rest != {}
      invariant rest <= frequency.Keys && Ascending(ids)
      invariant forall e: nat :: e in ids <==> Selection(layer, e) in frequency && Selection(layer, e) !in rest
      decreases |rest|
    {
      var k: Selection :| k in rest;
      rest := rest - {k};
      if k.layer == layer {
        ids := InsertedId(ids, k.expert);
      }
    }
  }

  function InsertedId(ids: seq<nat>, e: nat): (r: seq<nat>)
    requires Ascending(ids) && e !in ids
    ensures Ascending(r) && forall x :: x in r <==> x == e || x in ids
  {
    if ids == [] then [e]
    else if e < ids[0] then
      assert forall i | 1 <= i < |ids| :: ids[0] < ids[i];
      [e] + ids
    else
      assert ids == [ids[0]] + ids[1..];
      var rest := InsertedId(ids[1..], e);
      assert forall i | 0 <= i < |rest| :: rest[i] in rest;
      assert forall i | 1 <= i < |ids| :: ids[0] < ids[i];
      [ids[0]] + rest
  }

  /** Frequencies of the candidates and their totals. */
  method FrequencyColumns(db: Database, layer: nat, ids: seq<nat>)
    returns (frequency: seq<nat>, decayed: seq<real>, total: nat, decayedTotal: real)
    requires db.Valid()
    ensures |frequency| == |decayed| == |ids| && total == SumNat(frequency) && decayedTotal == SumReal(decayed)
    ensures forall i | 0 <= i < |ids| ::
      && frequency[i] == Tally(Selections(db.log), Selection(layer, ids[i]))
      && decayed[i] == DecayedTally(Selections(db.log), Selection(layer, ids[i]), db.decayFactor, db.observations)
  {
    frequency, decayed, total, decayedTotal := [], [], 0, 0.0;
    for i := 0 to |ids|
      invariant |frequency| == |decayed| == i && total == SumNat(frequency) && decayedTotal == SumReal(decayed)
      invariant forall j | 0 <= j < i ::
        && frequency[j] == Tally(Selections(db.log), Selection(layer, ids[j]))
        && decayed[j] == DecayedTally(Selections(db.log), Selection(layer, ids[j]), db.decayFactor, db.observations)
    {
      hide Tally, DecayedTally, Value, Exact, Remembers, LastOf, Moves, Pairs, Selections;
      var e := Selection(layer, ids[i]);
      var count := Get(db.frequency, e);
      var value := Value(db.decayedFrequency, e, db.decayFactor, db.observations);
      assert (frequency + [count])[..i] == frequency && (decayed + [value])[..i] == decayed;
      frequency, decayed := frequency + [count], decayed + [value];
      total, decayedTotal := total + count, decayedTotal + value;
    }
  }

  /** One source's moves into the candidates, exact and decayed, and their total. */
  method IncomingRow(db: Database, layer: nat, ids: seq<nat>, source: Selection)
    returns (counts: seq<nat>, decayed: seq<real>, total: nat)
    requires db.Valid()
    ensures |counts| == |decayed| == |ids| && total == SumNat(counts)
    ensures forall i | 0 <= i < |ids| ::
      && counts[i] == Tally(Moves(db.log), (source, Selection(layer, ids[i])))
      && decayed[i] == DecayedTally(Moves(db.log), (source, Selection(layer, ids[i])), db.decayFactor, db.observations)
  {
    counts, decayed, total := [], [], 0;
    for i := 0 to |ids|
      invariant |counts| == |decayed| == i && total == SumNat(counts)
      invariant forall j | 0 <= j < i ::
        && counts[j] == Tally(Moves(db.log), (source, Selection(layer, ids[j])))
        && decayed[j] == DecayedTally(Moves(db.log), (source, Selection(layer, ids[j])), db.decayFactor, db.observations)
    {
      hide Tally, DecayedTally, Value, Exact, Remembers, LastOf, Moves, Pairs, Selections;
      var move := (source, Selection(layer, ids[i]));
      var count := Get(db.transitions, move);
      var value := Value(db.decayedTransitions, move, db.decayFactor, db.observations);
      assert (counts + [count])[..i] == counts;
      counts, decayed, total := counts + [count], decayed + [value], total + count;
    }
  }

  /** The position of an expert among the candidates. */
  method PositionOf(ids: seq<nat>, e: nat) returns (i: nat)
    requires e in ids
    ensures i < |ids| && ids[i] == e
  {
    i := 0;
    while ids[i] != e
      invariant i < |ids| && forall j | 0 <= j < i :: ids[j] != e
      decreases |ids| - i
    {
      i := i + 1;
      assert i == |ids| ==> forall j | 0 <= j < |ids| :: ids[j] != e;
    }
  }

  /** What a list of selections adds to the window counts. */
  ghost predicate WindowCounted(counts: seq<nat>, counts0: seq<nat>, ids: seq<nat>, layer: nat, keys: seq<Selection>) {
    && |counts| == |counts0| == |ids|
    && forall i | 0 <= i < |ids| :: counts[i] == counts0[i] + Count(keys, Selection(layer, ids[i]))
  }

  method CountSet(counts: seq<nat>, total: nat, ids: seq<nat>, layer: nat, keys: seq<Selection>)
    returns (counts': seq<nat>, total': nat)
    requires |counts| == |ids| && Ascending(ids) && total == SumNat(counts)
    requires forall i | 0 <= i < |keys| && keys[i].layer == layer :: keys[i].expert in ids
    ensures WindowCounted(counts', counts, ids, layer, keys) && total' == SumNat(counts')
  {
    counts', total' := counts, total;
    for k := 0 to |keys|
      invariant WindowCounted(counts', counts, ids, layer, keys[..k]) && total' == SumNat(counts')
    {
      assert keys[..k + 1] == keys[..k] + [keys[k]];
      forall i | 0 <= i < |ids|
        ensures Count(keys[..k + 1], Selection(layer, ids[i]))
             == Count(keys[..k], Selection(layer, ids[i])) + if keys[k] == Selection(layer, ids[i]) then 1 else 0
      {
        CountPush(keys[..k], keys[k], Selection(layer, ids[i]));
      }
      if keys[k].layer == layer {
        var p := PositionOf(ids, keys[k].expert);
        SumBump(counts', p);
        counts' := counts'[p := counts'[p] + 1];
        total' := total' + 1;
      }
    }
    assert keys[..|keys|] == keys;
  }

  /** The window loop: every selection of the layer counts once, for a
      candidate and for the total. */
  method WindowColumn(recent: seq<seq<Selection>>, ids: seq<nat>, layer: nat) returns (counts: seq<nat>, total: nat)
    requires Ascending(ids)
    requires forall l, i | 0 <= l < |recent| && 0 <= i < |recent[l]| && recent[l][i].layer == layer ::
      recent[l][i].expert in ids
    ensures |counts| == |ids| && total == SumNat(counts)
    ensures forall i | 0 <= i < |ids| :: counts[i] == Tally(recent, Selection(layer, ids[i]))
  {
    counts, total := seq(|ids|, _ => 0), 0;
    ZeroSum(|ids|);
    for l := 0 to |recent|
      invariant |counts| == |ids| && total == SumNat(counts)
      invariant forall i | 0 <= i < |ids| :: counts[i] == Tally(recent[..l], Selection(layer, ids[i]))
    {
      forall i | 0 <= i < |ids|
        ensures Tally(recent[..l + 1], Selection(layer, ids[i]))
             == Tally(recent[..l], Selection(layer, ids[i])) + Count(recent[l], Selection(layer, ids[i]))
      {
        assert recent[..l + 1] == recent[..l] + [recent[l]];
        TallyPush(recent[..l], recent[l], Selection(layer, ids[i]));
      }
      counts, total := CountSet(counts, total, ids, layer, recent[l]);
    }
    assert recent[..|recent|] == recent;
  }

  lemma {:induction false} ZeroSum(n: nat)
    ensures SumNat(seq(n, _ => 0)) == 0
  {
    if n > 0 {
      ZeroSum(n - 1);
      assert seq(n, _ => 0)[..n - 1] == seq(n - 1, _ => 0);
    }
  }

  method Peers(db: Database, layer: nat, ids: seq<nat>, i: nat) returns (peers: map<nat, nat>)
    requires db.Valid() && i < |ids| && Ascending(ids)
    ensures peers == PeersOf(Pairs(db.log), ids, layer, i)
  {
    hide Tally, Agrees, Remembers, LastOf, Moves, Selections, Pairs;
    peers := map[];
    ghost var all := PeersOf(Pairs(db.log), ids, layer, i);
    for j := 0 to |ids|
      invariant forall p | p in peers :: p in all && peers[p] == all[p]
      invariant forall p | p in all :: p in peers || p in ids[j..]
    {
      assert ids[j..] == [ids[j]] + ids[j + 1..];
      if j != i {
        var pair := OrderedPair(Selection(layer, ids[i]), Selection(layer, ids[j]));
        assert Get(db.cooccurrence, pair) == Tally(Pairs(db.log), pair);
        if pair in db.cooccurrence {
          peers := peers[ids[j] := db.cooccurrence[pair]];
        }
      }
    }
    assert peers == all;
  }

  /** Every selection in the window belongs to a candidate. */
  lemma {:induction false} WindowCovered(db: Database, layer: nat, ids: seq<nat>)
    requires db.Valid() && forall e: nat :: e in ids <==> Selection(layer, e) in db.frequency
    ensures forall l, i | 0 <= l < |db.recent| && 0 <= i < |db.recent[l]| && db.recent[l][i].layer == layer ::
      db.recent[l][i].expert in ids
  {
    forall l, i | 0 <= l < |db.recent| && 0 <= i < |db.recent[l]| && db.recent[l][i].layer == layer
      ensures db.recent[l][i].expert in ids
    {
      var k := db.recent[l][i];
      var lists := Selections(db.log);
      assert db.recent[l] in lists;
      InTally(lists, db.recent[l], k);
      assert Get(db.frequency, k) == Tally(lists, k) > 0;
      assert k == Selection(layer, k.expert);
    }
  }

  lemma {:induction false} InTally<K>(lists: seq<seq<K>>, l: seq<K>, k: K)
    requires l in lists && k in l
    ensures Tally(lists, k) > 0
  {
    var n := |lists| - 1;
    if lists[n] == l {
      CountZero(l, k);
    } else {
      assert lists == lists[..n] + [lists[n]];
      InTally(lists[..n], l, k);
    }
  }

  method IncomingRows(db: Database, layer: nat, ids: seq<nat>, sources: seq<Selection>)
    returns (incoming: seq<seq<nat>>, decayedIncoming: seq<seq<real>>, outgoing: seq<nat>)
    requires db.Valid()
    ensures |incoming| == |decayedIncoming| == |outgoing| == |sources|
    ensures forall t | 0 <= t < |sources| ::
      && |incoming[t]| == |decayedIncoming[t]| == |ids| && outgoing[t] == SumNat(incoming[t])
      && forall i | 0 <= i < |ids| ::
           && incoming[t][i] == Tally(Moves(db.log), (sources[t], Selection(layer, ids[i])))
           && decayedIncoming[t][i] ==
              DecayedTally(Moves(db.log), (sources[t], Selection(layer, ids[i])), db.decayFactor, db.observations)
  {
    incoming, decayedIncoming, outgoing := [], [], [];
    for s := 0 to |sources|
      invariant |incoming| == |decayedIncoming| == |outgoing| == s
      invariant forall t | 0 <= t < s ::
        && |incoming[t]| == |decayedIncoming[t]| == |ids| && outgoing[t] == SumNat(incoming[t])
        && forall i | 0 <= i < |ids| ::
             && incoming[t][i] == Tally(Moves(db.log), (sources[t], Selection(layer, ids[i])))
             && decayedIncoming[t][i] ==
                DecayedTally(Moves(db.log), (sources[t], Selection(layer, ids[i])), db.decayFactor, db.observations)
    {
      hide Tally, DecayedTally, Exact, Agrees, Remembers, LastOf, Moves, Pairs, Selections, SumNat;
      var counts, values, out := IncomingRow(db, layer, ids, sources[s]);
      incoming, decayedIncoming, outgoing := incoming + [counts], decayedIncoming + [values], outgoing + [out];
    }
  }

  method PeerMaps(db: Database, layer: nat, ids: seq<nat>) returns (peers: seq<map<nat, nat>>)
    requires db.Valid() && Ascending(ids)
    ensures |peers| == |ids| && forall j | 0 <= j < |ids| :: peers[j] == PeersOf(Pairs(db.log), ids, layer, j)
  {
    hide Exact, Agrees, Remembers, LastOf, Moves, Pairs, Selections, PeersOf;
    peers := [];
    for i := 0 to |ids|
      invariant |peers| == i && forall j | 0 <= j < i :: peers[j] == PeersOf(Pairs(db.log), ids, layer, j)
    {
      var own := Peers(db, layer, ids, i);
      peers := peers + [own];
    }
  }

  method PredictionStatistics(db: Database, layer: nat, sources: seq<Selection>) returns (st: Statistics)
    requires db.Valid()
    ensures Faithful(st, db.log, db.recentWindow, db.decayFactor, layer, sources)
  {
    var ids := ExpertsInLayer(db.frequency, layer);
    CandidatesOccur(db, layer, ids);
    WindowCovered(db, layer, ids);
    hide Agrees, Exact, Remembers, Tally, DecayedTally, Selections, Moves, Pairs, SumNat, SumReal, PeersOf;
    var frequency, decayed, total, decayedTotal := FrequencyColumns(db, layer, ids);
    var windows, windowTotal := WindowColumn(db.recent, ids, layer);
    var incoming, decayedIncoming, outgoing := IncomingRows(db, layer, ids, sources);
    var peers := PeerMaps(db, layer, ids);
    st := Statistics(ids, frequency, decayed, windows, incoming, decayedIncoming, peers, total, decayedTotal,
                     windowTotal, outgoing);
  }

  lemma {:induction false} CandidatesOccur(db: Database, layer: nat, ids: seq<nat>)
    requires db.Valid() && forall e: nat :: e in ids <==> Selection(layer, e) in db.frequency
    ensures forall e: nat :: e in ids <==> Tally(Selections(db.log), Selection(layer, e)) > 0
  {
    forall e: nat
      ensures e in ids <==> Tally(Selections(db.log), Selection(layer, e)) > 0
    {
      assert Get(db.frequency, Selection(layer, e)) == Tally(Selections(db.log), Selection(layer, e));
    }
  }
}
