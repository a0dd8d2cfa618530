/**
The caching device-memory pool (src/backend/cuda/CudaMemoryPool.cpp). Each
method below is one section under the pool's lock, or one call of the backend
made outside it; the invariant holds between any two of them, so it holds on
every interleaving. The backend gives out pointers that are not outstanding.
 */
module MemoryPool {
  import opened Wrappers
  import opened Sums

  type Pointer = nat

  datatype Block = Block(size: nat, pointer: Pointer)

  const ALIGNMENT: nat := 256
  const MAX64: int := 0xffff_ffff_ffff_ffff

  datatype PoolError = ZeroSize | SizeOverflow | ShutDown | BackendFailed

  /** Requests are rounded up to whole multiples of 256 bytes. */
  function AlignedSize(size: nat): (r: Result<nat, PoolError>)
    ensures r.Ok? <==> 0 < size <= 0xffff_ffff_ffff_ff00
    ensures r == Err(ZeroSize) <==> size == 0
    ensures r == Err(SizeOverflow) <==> size > 0xffff_ffff_ffff_ff00
    ensures r.Ok? ==> r.value % 256 == 0 && size <= r.value < size + 256
  {
    if size == 0 then Err(ZeroSize)
    else if size > MAX64 - 255 then Err(SizeOverflow)
    else Ok((size + 255) / 256 * 256)
  }

  function TotalSize(blocks: seq<Block>): nat {
    if blocks == [] then 0 else blocks[0].size + TotalSize(blocks[1..])
  }

  lemma {:induction false} TotalAppend(a: seq<Block>, b: seq<Block>)
    ensures TotalSize(a + b) == TotalSize(a) + TotalSize(b)
  {
    if a == [] {
      assert a + b == b;
    } else {
      TotalAppend(a[1..], b);
      assert (a + b)[1..] == a[1..] + b;
    }
  }

  lemma {:induction false} TotalRemove(blocks: seq<Block>, i: nat)
    requires i < |blocks|
    ensures TotalSize(blocks) == blocks[i].size + TotalSize(blocks[..i] + blocks[i + 1..])
  {
    TotalAppend(blocks[..i], blocks[i..]);
    TotalAppend(blocks[..i], blocks[i + 1..]);
    assert blocks == blocks[..i] + blocks[i..] && blocks[i..][1..] == blocks[i + 1..];
  }

  predicate BySize(blocks: seq<Block>) {
    forall i, j | 0 <= i < j < |blocks| :: blocks[i].size <= blocks[j].size
  }

  /** The first block of at least this size, as an ordered map finds it. */
  function LowerBound(blocks: seq<Block>, size: nat): (i: nat)
    requires BySize(blocks)
    ensures i <= |blocks|
    ensures forall j | 0 <= j < i :: blocks[j].size < size
    ensures forall j | i <= j < |blocks| :: blocks[j].size >= size
  {
    if blocks == [] || blocks[0].size >= size then 0
    else
      var i := 1 + LowerBound(blocks[1..], size);
      assert forall j | 1 <= j < |blocks| :: blocks[j] == blocks[1..][j - 1];
      i
  }

  /** What the ordered map finds is the smallest block that is large enough. */
  lemma {:induction false} SmallestFit(blocks: seq<Block>, size: nat)
    requires BySize(blocks)
    ensures var i := LowerBound(blocks, size);
      if i < |blocks|
      then blocks[i] in blocks && blocks[i].size >= size && forall b | b in blocks && b.size >= size :: blocks[i].size <= b.size
      else forall b | b in blocks :: b.size < size
  {
  }

  /** The free blocks by pointer. */
  function Cached(blocks: seq<Block>): map<Pointer, nat> {
    if blocks == [] then map[] else Cached(blocks[1..])[blocks[0].pointer := blocks[0].size]
  }

  predicate Distinct(blocks: seq<Block>) {
    forall i, j | 0 <= i < j < |blocks| :: blocks[i].pointer != blocks[j].pointer
  }

  lemma {:induction false} CachedHas(blocks: seq<Block>, p: Pointer)
    requires Distinct(blocks)
    ensures p in Cached(blocks) <==> exists i :: 0 <= i < |blocks| && blocks[i].pointer == p
    ensures forall i | 0 <= i < |blocks| :: blocks[i].pointer in Cached(blocks) && Cached(blocks)[blocks[i].pointer] == blocks[i].size
  {
    if blocks != [] {
      var rest := blocks[1..];
      CachedHas(rest, p);
      assert forall i | 1 <= i < |blocks| :: blocks[i] == rest[i - 1];
    }
  }

  lemma {:induction false} CachedAppend(a: seq<Block>, b: seq<Block>)
    requires Distinct(a + b)
    ensures Distinct(a) && Distinct(b) && Cached(a).Keys !! Cached(b).Keys
    ensures Cached(a + b) == Cached(a) + Cached(b)
  {
    hide Cached, Distinct;
    DistinctSplit(a, b);
    CachedNone();
    if a == [] {
      assert a + b == b;
    } else {
      assert (a + b)[1..] == a[1..] + b;
      CachedAppend(a[1..], b);
      DistinctHead(a, b);
      CachedHas(b, a[0].pointer);
      CachedStep(a);
      CachedStep(a + b);
    }
  }

  lemma {:induction false} DistinctSplit(a: seq<Block>, b: seq<Block>)
    requires Distinct(a + b)
    ensures Distinct(a) && Distinct(b)
    ensures a != [] ==> Distinct(a[1..] + b)
  {
    assert forall i | 0 <= i < |a| :: (a + b)[i] == a[i];
    assert forall i | 0 <= i < |b| :: (a + b)[|a| + i] == b[i];
    if a != [] {
      var rest := a[1..] + b;
      assert forall i | 0 <= i < |rest| :: rest[i] == (a + b)[i + 1];
    }
  }

  lemma {:induction false} DistinctHead(a: seq<Block>, b: seq<Block>)
    requires a != [] && Distinct(a + b)
    ensures forall i | 0 <= i < |b| :: b[i].pointer != a[0].pointer
  {
    assert (a + b)[0] == a[0];
    assert forall i | 0 <= i < |b| :: (a + b)[|a| + i] == b[i];
  }

  lemma {:induction false} CachedNone()
    ensures Cached([]) == map[]
  {
  }

  lemma {:induction false} CachedStep(a: seq<Block>)
    requires a != []
    ensures Cached(a) == Cached(a[1..])[a[0].pointer := a[0].size]
  {
  }

  lemma {:induction false} CachedOne(b: Block)
    ensures Cached([b]) == map[b.pointer := b.size] && TotalSize([b]) == b.size
  {
    assert [b][1..] == [];
  }

  /** Insertion behind the blocks of no larger a size. */
  function Inserted(blocks: seq<Block>, b: Block): (r: seq<Block>)
    requires BySize(blocks)
  {
    var i := LowerBound(blocks, b.size + 1);
    blocks[..i] + [b] + blocks[i..]
  }

  lemma {:induction false} DistinctInsert(front: seq<Block>, back: seq<Block>, b: Block)
    requires Distinct(front + back) && b.pointer !in Cached(front + back)
    ensures Distinct(front + [b] + back)
  {
    CachedHas(front + back, b.pointer);
    assert forall i | 0 <= i < |front + back| :: (front + back)[i].pointer != b.pointer;
    assert forall i | 0 <= i < |front| :: (front + back)[i] == front[i];
    assert forall i | 0 <= i < |back| :: (front + back)[|front| + i] == back[i];
  }

  lemma {:induction false} InsertedSorted(blocks: seq<Block>, b: Block)
    requires BySize(blocks)
    ensures BySize(Inserted(blocks, b))
  {
  }

  lemma {:induction false} InsertedCaches(blocks: seq<Block>, b: Block)
    requires BySize(blocks) && Distinct(blocks) && b.pointer !in Cached(blocks)
    ensures var r := Inserted(blocks, b);
      && BySize(r) && Distinct(r) && TotalSize(r) == TotalSize(blocks) + b.size
      && Cached(r) == Cached(blocks)[b.pointer := b.size]
  {
    hide Cached, TotalSize, Distinct, BySize, LowerBound;
    var i := LowerBound(blocks, b.size + 1);
    var front, back := blocks[..i], blocks[i..];
    assert blocks == front + back;
    DistinctInsert(front, back, b);
    InsertedSorted(blocks, b);
    CachedAppend(front, back);
    CachedAppend(front + [b], back);
    CachedAppend(front, [b]);
    CachedOne(b);
    TotalAppend(front, back);
    TotalAppend(front + [b], back);
    TotalAppend(front, [b]);
  }

  function Without(blocks: seq<Block>, i: nat): (r: seq<Block>)
    requires i < |blocks|
  {
    blocks[..i] + blocks[i + 1..]
  }

  lemma {:induction false} WithoutCaches(blocks: seq<Block>, i: nat)
    requires i < |blocks| && BySize(blocks) && Distinct(blocks)
    ensures var r := Without(blocks, i);
      && BySize(r) && Distinct(r) && TotalSize(r) == TotalSize(blocks) - blocks[i].size
      && blocks[i].pointer in Cached(blocks) && Cached(blocks)[blocks[i].pointer] == blocks[i].size
      && Cached(r) == Cached(blocks) - {blocks[i].pointer}
  {
    hide Cached, TotalSize, Distinct, BySize;
    var front, back := blocks[..i], blocks[i + 1..];
    assert blocks == front + [blocks[i]] + back;
    CachedHas(blocks, 0);
    CachedAppend(front + [blocks[i]], back);
    CachedAppend(front, [blocks[i]]);
    CachedOne(blocks[i]);
    WithoutKeepsOrder(blocks, i);
    CachedAppend(front, back);
    TotalRemove(blocks, i);
  }

  lemma {:induction false} WithoutKeepsOrder(blocks: seq<Block>, i: nat)
    requires i < |blocks| && BySize(blocks) && Distinct(blocks)
    ensures BySize(Without(blocks, i)) && Distinct(Without(blocks, i))
  {
  }

  // ---- the books: who holds which block ----

  /** Each block the backend has given out is active, cached or leaving, and
      only one of the three, with its true size. */
  ghost predicate Books(cached: map<Pointer, nat>, active: map<Pointer, nat>, leaving: map<Pointer, nat>,
                        outstanding: map<Pointer, nat>) {
    && active.Keys !! leaving.Keys && active.Keys !! cached.Keys && leaving.Keys !! cached.Keys
    && outstanding == active + leaving + cached
  }

  lemma {:induction false} ReuseBooks(cached: map<Pointer, nat>, p: Pointer, active: map<Pointer, nat>,
                                      leaving: map<Pointer, nat>, outstanding: map<Pointer, nat>)
    requires Books(cached, active, leaving, outstanding) && p in cached
    ensures p !in active && Books(cached - {p}, active[p := cached[p]], leaving, outstanding)
  {
  }

  lemma {:induction false} CacheBooks(cached: map<Pointer, nat>, p: Pointer, active: map<Pointer, nat>,
                                      leaving: map<Pointer, nat>, outstanding: map<Pointer, nat>)
    requires Books(cached, active, leaving, outstanding) && p in active
    ensures p !in cached && Books(cached[p := active[p]], active - {p}, leaving, outstanding)
  {
  }

  lemma {:induction false} DrainBooks(cached: map<Pointer, nat>, p: Pointer, active: map<Pointer, nat>,
                                      leaving: map<Pointer, nat>, outstanding: map<Pointer, nat>)
    requires Books(cached, active, leaving, outstanding) && p in cached
    ensures Books(cached - {p}, active, leaving[p := cached[p]], outstanding)
  {
  }

  lemma {:induction false} FreshBooks(cached: map<Pointer, nat>, b: Block, active: map<Pointer, nat>,
                                      leaving: map<Pointer, nat>, outstanding: map<Pointer, nat>)
    requires Books(cached, active, leaving, outstanding) && b.pointer !in outstanding
    ensures b.pointer !in active
    ensures Books(cached, active[b.pointer := b.size], leaving, outstanding[b.pointer := b.size])
  {
  }

  lemma {:induction false} LeaveBooks(cached: map<Pointer, nat>, p: Pointer, active: map<Pointer, nat>,
                                      leaving: map<Pointer, nat>, outstanding: map<Pointer, nat>)
    requires Books(cached, active, leaving, outstanding) && p in active
    ensures Books(cached, active - {p}, leaving[p := active[p]], outstanding)
  {
  }

  lemma {:induction false} FreedBooks(cached: map<Pointer, nat>, p: Pointer, active: map<Pointer, nat>,
                                      leaving: map<Pointer, nat>, outstanding: map<Pointer, nat>)
    requires Books(cached, active, leaving, outstanding) && p in leaving
    ensures Books(cached, active, leaving - {p}, outstanding - {p})
  {
  }

  lemma {:induction false} BooksApart(cached: map<Pointer, nat>, active: map<Pointer, nat>, leaving: map<Pointer, nat>,
                                      outstanding: map<Pointer, nat>)
    requires Books(cached, active, leaving, outstanding)
    ensures Holders(cached, active, leaving).Apart()
  {
  }

  datatype Statistics = Statistics(
    allocatedBytes: nat, activeBytes: nat, freeBytes: nat, peakUsageBytes: nat, allocationCount: nat, reuseCount: nat)

  /** The peak is the largest value activeBytes has ever had. */
  ghost predicate Peak(history: seq<nat>, current: nat, peak: nat) {
    && history != [] && history[|history| - 1] == current
    && (forall h | h in history :: h <= peak) && peak in history
  }

  lemma {:induction false} PeakPush(history: seq<nat>, current: nat, peak: nat, next: nat)
    requires Peak(history, current, peak)
    ensures Peak(history + [next], next, if peak > next then peak else next)
  {
    assert next in history + [next];
    assert forall h | h in history + [next] :: h in history || h == next;
  }

  lemma {:induction false} PeakIsHigh(history: seq<nat>, current: nat, peak: nat)
    requires Peak(history, current, peak)
    ensures current <= peak
  {
    assert history[|history| - 1] in history;
  }

  lemma {:induction false} SumRemoved(m: map<Pointer, nat>, p: Pointer)
    requires p in m
    ensures SumMap(m - {p}) == SumMap(m) - m[p] >= 0
  {
    SumMapRemove(m, p);
  }

  /** A block becomes active: its bytes count, and may raise the peak. */
  function Activated(s: Statistics, size: nat): Statistics {
    s.(activeBytes := s.activeBytes + size,
       peakUsageBytes := if s.peakUsageBytes > s.activeBytes + size then s.peakUsageBytes else s.activeBytes + size)
  }

  /** The statistics that neither a release nor a drain may touch. */
  predicate Counted(s: Statistics, before: Statistics) {
    && s.peakUsageBytes == before.peakUsageBytes
    && s.allocationCount == before.allocationCount && s.reuseCount == before.reuseCount
  }

  lemma {:induction false} CountedSame(s: Statistics)
    ensures Counted(s, s)
  {
  }

  lemma {:induction false} CountedOn(s: Statistics, middle: Statistics, before: Statistics)
    requires Counted(s, middle) && Counted(middle, before)
    ensures Counted(s, before)
  {
  }

  // ---- what other threads do while the pool shuts down ----

  /** A section or backend call of another thread: a buffer is released, a
      block that has left the pool reaches the backend, a trim takes a block. */
  datatype Event = Released(pointer: Pointer) | Freed(pointer: Pointer) | Trimmed

  /** All events of the first n stretches between two of shutdown's own moves. */
  function EventsOf(late: nat -> seq<Event>, n: nat): seq<Event> {
    if n == 0 then [] else EventsOf(late, n - 1) + late(n - 1)
  }

  /** A block goes back when its backend call comes, and for an active block
      that call comes after its release. */
  ghost predicate Returned(p: Pointer, active: bool, events: seq<Event>) {
    exists j :: 0 <= j < |events| && events[j] == Freed(p) && (active ==> Released(p) in events[..j])
  }

  lemma {:induction false} ReturnedPush(p: Pointer, active: bool, events: seq<Event>, e: Event)
    ensures Returned(p, active, events + [e]) <==>
      Returned(p, active, events) || (e == Freed(p) && (active ==> Released(p) in events))
  {
    var all := events + [e];
    assert all[..|events|] == events && all[|events|] == e;
    assert forall j | 0 <= j < |events| :: all[j] == events[j] && all[..j] == events[..j];
  }

  /** A trim may have taken the block, and no backend call for it has come since. */
  ghost predicate Pending(p: Pointer, events: seq<Event>) {
    exists i :: 0 <= i < |events| && events[i] == Trimmed && Freed(p) !in events[i..]
  }

  lemma {:induction false} PendingPush(p: Pointer, events: seq<Event>, e: Event)
    ensures Pending(p, events + [e]) <==> e == Trimmed || (Pending(p, events) && e != Freed(p))
  {
    var all := events + [e];
    assert all[|events|..] == [e];
    assert forall i | 0 <= i < |events| :: all[i] == events[i] && all[i..] == events[i..] + [e];
  }

  /** Who holds which block: in the cache, in use, on its way to the backend. */
  datatype Holders = Holders(cached: map<Pointer, nat>, active: map<Pointer, nat>, leaving: map<Pointer, nat>) {
    ghost predicate Apart() {
      active.Keys !! leaving.Keys && active.Keys !! cached.Keys && leaving.Keys !! cached.Keys
    }
  }

  /** One event of a pool that accepts nothing any more. A trim takes a cached
      block; an event that finds nothing to do does nothing. */
  ghost predicate Happens(e: Event, h: Holders, h': Holders) {
    match e
    case Released(p) =>
      h' == if p in h.active then h.(active := h.active - {p}, leaving := h.leaving[p := h.active[p]]) else h
    case Freed(p) => h' == h.(leaving := h.leaving - {p})
    case Trimmed =>
      if h.cached == map[] then h' == h
      else exists p | p in h.cached ::
        h' == h.(cached := h.cached - {p}, leaving := h.leaving[p := h.cached[p]])
  }

  /** Holders without what somebody has in their own hands. */
  function Around(cached: map<Pointer, nat>, active: map<Pointer, nat>, leaving: map<Pointer, nat>, mine: set<Pointer>)
    : (h: Holders)
  {
    Holders(cached, active, leaving - mine)
  }

  lemma {:induction false} AroundApart(cached: map<Pointer, nat>, active: map<Pointer, nat>,
                                       leaving: map<Pointer, nat>, mine: set<Pointer>, outstanding: map<Pointer, nat>)
    requires Books(cached, active, leaving, outstanding)
    ensures Around(cached, active, leaving, mine).Apart()
  {
  }

  lemma {:induction false} ReleaseHappens(cached: map<Pointer, nat>, active: map<Pointer, nat>,
                                          leaving: map<Pointer, nat>, mine: set<Pointer>, p: Pointer)
    requires Holders(cached, active, leaving).Apart() && mine <= leaving.Keys && p in active
    ensures Happens(Released(p), Around(cached, active, leaving, mine),
                    Around(cached, active - {p}, leaving[p := active[p]], mine))
  {
    assert leaving[p := active[p]] - mine == (leaving - mine)[p := active[p]];
  }

  lemma {:induction false} FreeHappens(cached: map<Pointer, nat>, active: map<Pointer, nat>,
                                       leaving: map<Pointer, nat>, mine: set<Pointer>, p: Pointer)
    requires p !in mine
    ensures Happens(Freed(p), Around(cached, active, leaving, mine), Around(cached, active, leaving - {p}, mine))
  {
    assert leaving - {p} - mine == leaving - mine - {p};
  }

  lemma {:induction false} TrimHappens(cached: map<Pointer, nat>, active: map<Pointer, nat>,
                                       leaving: map<Pointer, nat>, mine: set<Pointer>, p: Pointer)
    requires Holders(cached, active, leaving).Apart() && mine <= leaving.Keys && p in cached
    ensures Happens(Trimmed, Around(cached, active, leaving, mine),
                    Around(cached - {p}, active, leaving[p := cached[p]], mine))
  {
    assert leaving[p := cached[p]] - mine == (leaving - mine)[p := cached[p]];
  }

  lemma {:induction false} NothingHappens(e: Event, h: Holders)
    requires e.Released? ==> e.pointer !in h.active
    requires e.Freed? ==> e.pointer !in h.leaving
    requires e.Trimmed? ==> h.cached == map[]
    ensures Happens(e, h, h)
  {
  }

  /** What the events since the first holders have come to for one block. */
  ghost predicate Fate(first: Holders, events: seq<Event>, h: Holders, p: Pointer) {
    && (p in h.cached ==> p in first.cached) && (p in h.active ==> p in first.active)
    && (p in first.active ==>
          && (p in h.active <==> Released(p) !in events)
          && (p in h.active || p in h.leaving <==> !Returned(p, true, events)))
    && (p in first.leaving ==> (p in h.leaving <==> !Returned(p, false, events)))
    && (p in h.leaving ==> p in first.active || p in first.leaving || (p in first.cached && Pending(p, events)))
  }

  ghost predicate ComesTo(first: Holders, events: seq<Event>, h: Holders) {
    forall p: Pointer :: Fate(first, events, h, p)
  }

  lemma {:induction false} StartsThere(h: Holders)
    requires h.Apart()
    ensures ComesTo(h, [], h)
  {
  }

  lemma {:induction false} FateNext(first: Holders, events: seq<Event>, h: Holders, e: Event, h': Holders, p: Pointer)
    requires first.Apart() && h.Apart() && Fate(first, events, h, p) && Happens(e, h, h')
    ensures Fate(first, events + [e], h', p)
  {
    ReturnedPush(p, true, events, e);
    ReturnedPush(p, false, events, e);
    PendingPush(p, events, e);
    hide Returned, Pending;
    assert forall x :: x in events + [e] <==> x in events || x == e;
  }

  /** Every block that was in use or on its way has been given back, and so has
      whatever a trim may have taken. */
  ghost predicate AllBack(first: Holders, events: seq<Event>) {
    && (forall p | p in first.active :: Returned(p, true, events))
    && (forall p | p in first.leaving :: Returned(p, false, events))
    && (forall p | p in first.cached :: !Pending(p, events))
  }

  /** Then nobody but the cache holds anything, and without trims only then. */
  lemma {:induction false} NobodyHolds(first: Holders, events: seq<Event>, h: Holders)
    requires ComesTo(first, events, h)
    ensures AllBack(first, events) ==> h.active == h.leaving == map[]
    ensures h.active == h.leaving == map[] && Trimmed !in events ==> AllBack(first, events)
  {
    hide Returned;
    if AllBack(first, events) {
      forall p: Pointer ensures p !in h.active && p !in h.leaving {
        assert Fate(first, events, h, p);
      }
    }
    if h.active == h.leaving == map[] && Trimmed !in events {
      forall p: Pointer ensures
        (p in first.active ==> Returned(p, true, events)) && (p in first.leaving ==> Returned(p, false, events))
      {
        assert Fate(first, events, h, p);
      }
    }
  }

  lemma {:induction false} HappensApart(e: Event, h: Holders, h': Holders)
    requires h.Apart() && Happens(e, h, h')
    ensures h'.Apart()
  {
  }

  lemma {:induction false} ComesToNext(first: Holders, events: seq<Event>, h: Holders, e: Event, h': Holders)
    requires first.Apart() && h.Apart() && ComesTo(first, events, h) && Happens(e, h, h')
    ensures ComesTo(first, events + [e], h')
  {
    hide Fate, Happens, Holders.Apart;
    forall p: Pointer ensures Fate(first, events + [e], h', p) {
      FateNext(first, events, h, e, h', p);
    }
  }

  /** What an observer can compare over time. */
  datatype Sheet = Sheet(blocks: nat, history: seq<nat>, statistics: Statistics, outstanding: map<Pointer, nat>)

  /** Nothing was added, and what is still out has kept its size. */
  ghost predicate Shrinks(a: Sheet, b: Sheet) {
    && b.blocks <= a.blocks && a.history <= b.history && Counted(b.statistics, a.statistics)
    && forall p | p in b.outstanding :: p in a.outstanding && b.outstanding[p] == a.outstanding[p]
  }

  lemma {:induction false} ShrinksSame(a: Sheet)
    ensures Shrinks(a, a)
  {
  }

  lemma {:induction false} ShrinksOn(a: Sheet, b: Sheet, c: Sheet)
    requires Shrinks(a, b) && Shrinks(b, c)
    ensures Shrinks(a, c)
  {
  }

  lemma {:induction false} ShrinksBlocks(a: Sheet, b: Sheet)
    requires Shrinks(a, b)
    ensures b.blocks <= a.blocks
  {
  }

  function Own(p: Option<Pointer>): set<Pointer> {
    if p.Some? then {p.value} else {}
  }

  /** A block taken from the cache into one's own hands concerns nobody else. */
  lemma {:induction false} TakenAside(first: Holders, events: seq<Event>, cached: map<Pointer, nat>,
                                      active: map<Pointer, nat>, leaving: map<Pointer, nat>, p: Pointer)
    requires Holders(cached, active, leaving).Apart() && p in cached
    requires ComesTo(first, events, Around(cached, active, leaving, {}))
    ensures ComesTo(first, events, Around(cached - {p}, active, leaving[p := cached[p]], {p}))
  {
    var h, h' := Around(cached, active, leaving, {}), Around(cached - {p}, active, leaving[p := cached[p]], {p});
    assert h'.leaving == h.leaving;
    hide Returned, Pending;
    forall q: Pointer ensures Fate(first, events, h', q) {
      assert Fate(first, events, h, q);
    }
  }

  class Pool {
    const maximumCachedBytes: nat
    var freeBlocks: seq<Block>
    var activeBlocks: map<Pointer, nat>
    var statistics: Statistics
    var accepting: bool
    /** Blocks taken out of the pool whose return to the backend is under way. */
    ghost var leaving: map<Pointer, nat>
    /** What the backend has given out and not got back. */
    ghost var outstanding: map<Pointer, nat>
    /** Every value activeBytes has had. */
    ghost var history: seq<nat>

    ghost predicate Valid()
      reads this
    {
      && BySize(freeBlocks) && Distinct(freeBlocks)
      && Books(Cached(freeBlocks), activeBlocks, leaving, outstanding)
      && statistics.activeBytes == SumMap(activeBlocks)
      && statistics.freeBytes == TotalSize(freeBlocks)
      && statistics.allocatedBytes == statistics.activeBytes + statistics.freeBytes
      && statistics.freeBytes <= maximumCachedBytes
      && Peak(history, statistics.activeBytes, statistics.peakUsageBytes)
    }

    constructor (maximumCachedBytes: nat)
      ensures Valid() && this.maximumCachedBytes == maximumCachedBytes && accepting
      ensures freeBlocks == [] && activeBlocks == map[] && outstanding == map[] && leaving == map[]
      ensures history == [0] && statistics == Statistics(0, 0, 0, 0, 0, 0)
    {
      this.maximumCachedBytes := maximumCachedBytes;
      freeBlocks, activeBlocks, accepting := [], map[], true;
      statistics := Statistics(0, 0, 0, 0, 0, 0);
      leaving, outstanding, history := map[], map[], [0];
    }

    /** Acquire, given what the backend would answer: the smallest free block
        that is large enough is reused, and only without one is the backend
        asked, for exactly the aligned size. */
    method Acquire(requested: nat, answer: Option<Pointer>) returns (r: Result<Block, PoolError>)
      requires Valid() && (answer.Some? ==> answer.value !in outstanding)
      modifies this
      ensures Valid() && accepting == old(accepting) && leaving == old(leaving)
      ensures r.Err? <==>
        || AlignedSize(requested).Err? || !old(accepting)
        || (answer == None && forall b | b in old(freeBlocks) :: b.size < AlignedSize(requested).value)
      ensures r.Err? ==>
        && r.error == (if AlignedSize(requested).Err? then AlignedSize(requested).error
                       else if !old(accepting) then ShutDown else BackendFailed)
        && freeBlocks == old(freeBlocks) && activeBlocks == old(activeBlocks) && outstanding == old(outstanding)
        && statistics == old(statistics) && history == old(history)
      ensures r.Ok? ==>
        && requested <= r.value.size && r.value.pointer !in old(activeBlocks)
        && activeBlocks == old(activeBlocks)[r.value.pointer := r.value.size]
        && history == old(history) + [old(statistics.activeBytes) + r.value.size]
      ensures r.Ok? ==>
        if exists b :: b in old(freeBlocks) && b.size >= AlignedSize(requested).value then
          && r.value in old(freeBlocks) && outstanding == old(outstanding)
          && r.value.size >= AlignedSize(requested).value
          && (forall b | b in old(freeBlocks) && b.size >= AlignedSize(requested).value :: r.value.size <= b.size)
          && Cached(freeBlocks) == Cached(old(freeBlocks)) - {r.value.pointer}
          && statistics.reuseCount == old(statistics.reuseCount) + 1
          && statistics.allocationCount == old(statistics.allocationCount)
        else
          && answer == Some(r.value.pointer) && r.value.size == AlignedSize(requested).value
          && outstanding == old(outstanding)[r.value.pointer := r.value.size] && freeBlocks == old(freeBlocks)
          && statistics.allocationCount == old(statistics.allocationCount) + 1
          && statistics.reuseCount == old(statistics.reuseCount)
    {
      hide Books, TotalSize, SumMap, Peak, Without, Inserted, BySize, LowerBound, Distinct, Cached, AlignedSize;
      var aligned := AlignedSize(requested);
      if aligned.Err? {
        return Err(aligned.error);
      }
      if !accepting {
        return Err(ShutDown);
      }
      SmallestFit(freeBlocks, aligned.value);
      var i := LowerBound(freeBlocks, aligned.value);
      if i < |freeBlocks| {
        var block := Reuse(i);
        return Ok(block);
      }
      if answer == None {
        return Err(BackendFailed);
      }
      Allocate(Block(aligned.value, answer.value));
      r := Ok(Block(aligned.value, answer.value));
    }

    /** A cached block goes back to work. */
    method Reuse(i: nat) returns (block: Block)
      requires Valid() && i < |freeBlocks|
      modifies this
      ensures Valid() && accepting == old(accepting) && leaving == old(leaving) && outstanding == old(outstanding)
      ensures block == old(freeBlocks)[i] && freeBlocks == Without(old(freeBlocks), i)
      ensures Cached(freeBlocks) == Cached(old(freeBlocks)) - {block.pointer}
      ensures block.pointer !in old(activeBlocks) && activeBlocks == old(activeBlocks)[block.pointer := block.size]
      ensures history == old(history) + [old(statistics.activeBytes) + block.size]
      ensures statistics.reuseCount == old(statistics.reuseCount) + 1
      ensures statistics.allocationCount == old(statistics.allocationCount)
    {
      hide Books, TotalSize, SumMap, Peak, Without, Inserted, BySize, LowerBound, Distinct, Cached;
      block := freeBlocks[i];
      WithoutCaches(freeBlocks, i);
      ReuseBooks(Cached(freeBlocks), block.pointer, activeBlocks, leaving, outstanding);
      SumMapInsert(activeBlocks, block.pointer, block.size);
      PeakPush(history, statistics.activeBytes, statistics.peakUsageBytes, statistics.activeBytes + block.size);
      freeBlocks := Without(freeBlocks, i);
      statistics := statistics.(freeBytes := statistics.freeBytes - block.size, reuseCount := statistics.reuseCount + 1);
      activeBlocks := activeBlocks[block.pointer := block.size];
      history := history + [statistics.activeBytes + block.size];
      statistics := Activated(statistics, block.size);
    }

    /** A block fresh from the backend. */
    method Allocate(block: Block)
      requires Valid() && block.pointer !in outstanding
      modifies this
      ensures Valid() && accepting == old(accepting) && leaving == old(leaving) && freeBlocks == old(freeBlocks)
      ensures outstanding == old(outstanding)[block.pointer := block.size]
      ensures block.pointer !in old(activeBlocks) && activeBlocks == old(activeBlocks)[block.pointer := block.size]
      ensures history == old(history) + [old(statistics.activeBytes) + block.size]
      ensures statistics.allocationCount == old(statistics.allocationCount) + 1
      ensures statistics.reuseCount == old(statistics.reuseCount)
    {
      hide Books, TotalSize, SumMap, Peak, Without, Inserted, BySize, LowerBound, Distinct, Cached;
      FreshBooks(Cached(freeBlocks), block, activeBlocks, leaving, outstanding);
      SumMapInsert(activeBlocks, block.pointer, block.size);
      PeakPush(history, statistics.activeBytes, statistics.peakUsageBytes, statistics.activeBytes + block.size);
      outstanding := outstanding[block.pointer := block.size];
      statistics := statistics.(allocatedBytes := statistics.allocatedBytes + block.size,
                                allocationCount := statistics.allocationCount + 1);
      activeBlocks := activeBlocks[block.pointer := block.size];
      history := history + [statistics.activeBytes + block.size];
      statistics := Activated(statistics, block.size);
    }

    /** The locked part of release. A pointer that is not active changes
        nothing. Otherwise it is cached while the pool accepts and the cache
        limit allows, or leaves the pool: the caller must then free it. */
    method Release(p: Pointer) returns (toFree: bool)
      requires Valid()
      modifies this`freeBlocks, this`activeBlocks, this`statistics, this`leaving, this`history
      ensures Valid()
      ensures p !in old(activeBlocks) ==>
        && !toFree && activeBlocks == old(activeBlocks) && freeBlocks == old(freeBlocks) && leaving == old(leaving)
        && statistics == old(statistics) && history == old(history)
      ensures p in old(activeBlocks) ==>
        var size := old(activeBlocks)[p];
        && activeBlocks == old(activeBlocks) - {p}
        && history == old(history) + [old(statistics.activeBytes) - size]
        && Counted(statistics, old(statistics))
        && (toFree <==> !accepting || old(statistics.freeBytes) + size > maximumCachedBytes)
        && (toFree ==> leaving == old(leaving)[p := size] && freeBlocks == old(freeBlocks))
        && (!toFree ==> leaving == old(leaving)
                        && Cached(freeBlocks) == Cached(old(freeBlocks))[p := size])
    {
      hide Books, TotalSize, SumMap, Peak, Without, Inserted, BySize, LowerBound, Distinct, Cached;
      if p !in activeBlocks {
        return false;
      }
      var capacity := activeBlocks[p];
      SumRemoved(activeBlocks, p);
      LeaveBooks(Cached(freeBlocks), p, activeBlocks, leaving, outstanding);
      CacheBooks(Cached(freeBlocks), p, activeBlocks, leaving, outstanding);
      PeakPush(history, statistics.activeBytes, statistics.peakUsageBytes, statistics.activeBytes - capacity);
      PeakIsHigh(history, statistics.activeBytes, statistics.peakUsageBytes);
      statistics := statistics.(activeBytes := statistics.activeBytes - capacity);
      history := history + [statistics.activeBytes];
      if accepting && statistics.freeBytes <= maximumCachedBytes
         && capacity <= maximumCachedBytes - statistics.freeBytes {
        activeBlocks := activeBlocks - {p};
        InsertedCaches(freeBlocks, Block(capacity, p));
        freeBlocks := Inserted(freeBlocks, Block(capacity, p));
        statistics := statistics.(freeBytes := statistics.freeBytes + capacity);
        return false;
      }
      activeBlocks := activeBlocks - {p};
      leaving := leaving[p := capacity];
      statistics := statistics.(allocatedBytes := statistics.allocatedBytes - capacity);
      toFree := true;
    }

    /** The call of the backend for a block that has left the pool. */
    ghost method GiveBack(p: Pointer)
      requires Valid() && p in leaving
      modifies this`leaving, this`outstanding
      ensures Valid() && leaving == old(leaving) - {p} && outstanding == old(outstanding) - {p}
    {
      FreedBooks(Cached(freeBlocks), p, activeBlocks, leaving, outstanding);
      hide Books, TotalSize, SumMap, Peak, Without, Inserted, BySize, LowerBound, Distinct, Cached;
      leaving := leaving - {p};
      outstanding := outstanding - {p};
    }

    /** One turn of the drain loop: the smallest free block leaves. */
    method DrainOne() returns (p: Option<Pointer>)
      requires Valid()
      modifies this`freeBlocks, this`statistics, this`leaving
      ensures Valid()
      ensures p == None <==> old(freeBlocks) == []
      ensures p == None ==> freeBlocks == [] && statistics == old(statistics) && leaving == old(leaving)
      ensures p.Some? ==>
        && p.value == old(freeBlocks)[0].pointer && freeBlocks == Without(old(freeBlocks), 0)
        && leaving == old(leaving)[p.value := old(freeBlocks)[0].size]
        && statistics == old(statistics).(
             allocatedBytes := old(statistics.allocatedBytes) - old(freeBlocks)[0].size,
             freeBytes := old(statistics.freeBytes) - old(freeBlocks)[0].size)
    {
      if freeBlocks == [] {
        return None;
      }
      hide Books, TotalSize, SumMap, Peak, Without, Inserted, BySize, LowerBound, Distinct, Cached;
      var block := freeBlocks[0];
      WithoutCaches(freeBlocks, 0);
      DrainBooks(Cached(freeBlocks), block.pointer, activeBlocks, leaving, outstanding);
      freeBlocks := Without(freeBlocks, 0);
      leaving := leaving[block.pointer := block.size];
      statistics := statistics.(allocatedBytes := statistics.allocatedBytes - block.size,
                                freeBytes := statistics.freeBytes - block.size);
      p := Some(block.pointer);
    }

    /** The drain loop run to its end, when nobody comes between. */
    method Drain()
      requires Valid()
      modifies this`freeBlocks, this`statistics, this`leaving, this`outstanding
      ensures Valid() && freeBlocks == [] && leaving == old(leaving)
      ensures outstanding == activeBlocks + leaving
      ensures Counted(statistics, old(statistics)) && statistics.activeBytes == old(statistics.activeBytes)
    {
      while freeBlocks != []
        invariant Valid() && leaving == old(leaving)
        invariant Counted(statistics, old(statistics)) && statistics.activeBytes == old(statistics.activeBytes)
        decreases |freeBlocks|
      {
        var p := DrainOne();
        GiveBack(p.value);
        assert leaving == old(leaving);
      }
    }

    /** Nothing is accepted any more and nothing is cached; a release can cache
        nothing again. */
    ghost predicate Closed()
      reads this
    {
      Valid() && !accepting && freeBlocks == []
    }

    /** Who holds what, the blocks in the caller's own hands aside. */
    ghost function Holding(mine: set<Pointer>): Holders
      reads this
    {
      Around(Cached(freeBlocks), activeBlocks, leaving, mine)
    }

    ghost function Now(): Sheet
      reads this
    {
      Sheet(|freeBlocks|, history, statistics, outstanding)
    }

    /** One event of another thread after the pool has stopped accepting. The
        block in the caller's own hands is nobody else's to give back. */
    method Other(e: Event, ghost mine: set<Pointer>)
      requires Valid() && !accepting && mine <= leaving.Keys
      modifies this`freeBlocks, this`activeBlocks, this`statistics, this`leaving, this`outstanding, this`history
      ensures Valid() && mine <= leaving.Keys && Shrinks(old(Now()), Now())
      ensures Happens(e, old(Holding(mine)), Holding(mine))
    {
      hide Books, TotalSize, SumMap, Peak, BySize, Distinct, Cached, Happens, Shrinks;
      match e {
        case Released(p) => OtherRelease(p, mine);
        case Freed(p) => OtherFree(p, mine);
        case Trimmed => OtherTrim(mine);
      }
    }

    method OtherRelease(p: Pointer, ghost mine: set<Pointer>)
      requires Valid() && !accepting && mine <= leaving.Keys
      modifies this`freeBlocks, this`activeBlocks, this`statistics, this`leaving, this`outstanding, this`history
      ensures Valid() && mine <= leaving.Keys && Shrinks(old(Now()), Now())
      ensures Happens(Released(p), old(Holding(mine)), Holding(mine))
    {
      BooksApart(Cached(freeBlocks), activeBlocks, leaving, outstanding);
      CountedSame(statistics);
      hide Books, TotalSize, SumMap, Peak, BySize, Distinct, Cached, Counted, LowerBound, Happens, Without, Holders.Apart;
      if p in activeBlocks {
        ReleaseHappens(Cached(freeBlocks), activeBlocks, leaving, mine, p);
      } else {
        NothingHappens(Released(p), Holding(mine));
      }
      var _ := Release(p);
    }

    ghost method OtherFree(p: Pointer, mine: set<Pointer>)
      requires Valid() && mine <= leaving.Keys
      modifies this`leaving, this`outstanding
      ensures Valid() && mine <= leaving.Keys && Shrinks(old(Now()), Now())
      ensures Happens(Freed(p), old(Holding(mine)), Holding(mine))
    {
      BooksApart(Cached(freeBlocks), activeBlocks, leaving, outstanding);
      CountedSame(statistics);
      hide Books, TotalSize, SumMap, Peak, BySize, Distinct, Cached, Counted, LowerBound, Happens, Without, Holders.Apart;
      if p in leaving && p !in mine {
        FreeHappens(Cached(freeBlocks), activeBlocks, leaving, mine, p);
        GiveBack(p);
      } else {
        NothingHappens(Freed(p), Holding(mine));
      }
    }

    method OtherTrim(ghost mine: set<Pointer>)
      requires Valid() && mine <= leaving.Keys
      modifies this`freeBlocks, this`statistics, this`leaving
      ensures Valid() && mine <= leaving.Keys && Shrinks(old(Now()), Now())
      ensures Happens(Trimmed, old(Holding(mine)), Holding(mine))
    {
      BooksApart(Cached(freeBlocks), activeBlocks, leaving, outstanding);
      CountedSame(statistics);
      hide Books, TotalSize, SumMap, Peak, BySize, Distinct, Cached, Counted, LowerBound, Happens, Without, Holders.Apart;
      if freeBlocks == [] {
        CachedNone();
        NothingHappens(Trimmed, Holding(mine));
      } else {
        WithoutCaches(freeBlocks, 0);
        TrimHappens(Cached(freeBlocks), activeBlocks, leaving, mine, freeBlocks[0].pointer);
      }
      var _ := DrainOne();
    }

    /** Any number of them, one after another. */
    method Others(events: seq<Event>, ghost mine: set<Pointer>, ghost first: Holders, ghost earlier: seq<Event>)
      requires Valid() && !accepting && mine <= leaving.Keys
      requires first.Apart() && ComesTo(first, earlier, Holding(mine))
      modifies this`freeBlocks, this`activeBlocks, this`statistics, this`leaving, this`outstanding, this`history
      ensures Valid() && mine <= leaving.Keys && Shrinks(old(Now()), Now())
      ensures ComesTo(first, earlier + events, Holding(mine))
    {
      assert earlier + events[..0] == earlier;
      ShrinksSame(Now());
      hide Books, TotalSize, SumMap, Peak, BySize, Distinct, Cached, ComesTo, Happens, Holders.Apart, Shrinks;
      for i := 0 to |events|
        invariant Valid() && mine <= leaving.Keys && Shrinks(old(Now()), Now())
        invariant ComesTo(first, earlier + events[..i], Holding(mine))
      {
        ghost var before, sheet := Holding(mine), Now();
        AroundApart(Cached(freeBlocks), activeBlocks, leaving, mine, outstanding);
        Other(events[i], mine);
        ShrinksOn(old(Now()), sheet, Now());
        ComesToNext(first, earlier + events[..i], before, events[i], Holding(mine));
        assert earlier + events[..i + 1] == earlier + events[..i] + [events[i]];
      }
      assert events[..|events|] == events;
    }

    /** Shutdown: the flag, then the drain loop with its backend calls, while
        other threads go on releasing, trimming and giving back between any two
        of its moves. The cache ends empty. Of the blocks in use or on their way
        at the start, exactly those whose backend call came are back; of the
        cached ones only a block that another thread's trim took can be out.
        The result is the number of stretches in which others could move. */
    method Shutdown(late: nat -> seq<Event>) returns (stretches: nat)
      requires Valid()
      modifies this`accepting, this`freeBlocks, this`activeBlocks, this`statistics, this`leaving, this`outstanding,
               this`history
      ensures Closed() && outstanding == activeBlocks + leaving
      ensures ComesTo(old(Holding({})), EventsOf(late, stretches), Holding({}))
      ensures Shrinks(old(Now()), Now())
    {
      AroundApart(Cached(freeBlocks), activeBlocks, leaving, {}, outstanding);
      ghost var first, sheet := Holding({}), Now();
      StartsThere(first);
      hide Books, TotalSize, SumMap, Peak, BySize, Distinct, Cached, ComesTo, Holders.Apart, Shrinks;
      accepting := false;
      Others(late(0), {}, first, []);
      ghost var middle := Now();
      assert EventsOf(late, 1) == late(0);
      stretches := 1;
      var p := TakeOne(first, EventsOf(late, 1));
      ShrinksOn(sheet, middle, Now());
      while p.Some?
        invariant Valid() && !accepting && Shrinks(sheet, Now()) && (p == None ==> freeBlocks == [])
        invariant Own(p) <= leaving.Keys && ComesTo(first, EventsOf(late, stretches), Holding(Own(p)))
        decreases |freeBlocks| + if p.Some? then 1 else 0
      {
        middle := Now();
        p := Turn(p.value, late, stretches, first);
        ShrinksOn(sheet, middle, Now());
        stretches := stretches + 2;
      }
      ClosedBooks();
    }

    lemma {:induction false} ClosedBooks()
      requires Valid() && freeBlocks == []
      ensures outstanding == activeBlocks + leaving
      ensures outstanding == map[] ==> statistics == statistics.(allocatedBytes := 0, activeBytes := 0, freeBytes := 0)
    {
      if outstanding == map[] {
        assert forall p :: p !in activeBlocks || p in outstanding;
        assert activeBlocks == map[];
      }
    }

    /** From any state of the pool: shutdown, and then whatever other threads
        still have to do. Once every buffer has been released and given back,
        nothing is outstanding at the backend and every byte count is zero;
        without trims by others, exactly then. */
    method CloseDown(late: nat -> seq<Event>, rest: seq<Event>) returns (stretches: nat)
      requires Valid()
      modifies this`accepting, this`freeBlocks, this`activeBlocks, this`statistics, this`leaving, this`outstanding,
               this`history
      ensures Closed() && outstanding == activeBlocks + leaving && Shrinks(old(Now()), Now())
      ensures var first, events := old(Holding({})), EventsOf(late, stretches) + rest;
        && ComesTo(first, events, Holding({}))
        && (AllBack(first, events) ==> outstanding == map[])
        && (outstanding == map[] && Trimmed !in events ==> AllBack(first, events))
      ensures outstanding == map[] ==>
        statistics.allocatedBytes == statistics.activeBytes == statistics.freeBytes == 0
    {
      AroundApart(Cached(freeBlocks), activeBlocks, leaving, {}, outstanding);
      ghost var first, sheet := Holding({}), Now();
      hide Books, TotalSize, SumMap, Peak, BySize, Distinct, Cached, ComesTo, Holders.Apart, Shrinks, AllBack;
      stretches := Shutdown(late);
      ghost var middle := Now();
      Others(rest, {}, first, EventsOf(late, stretches));
      ShrinksOn(sheet, middle, Now());
      ShrinksBlocks(middle, Now());
      ClosedBooks();
      NobodyHolds(first, EventsOf(late, stretches) + rest, Holding({}));
      assert leaving - {} == leaving;
    }

    /** One turn of its loop: the backend call, and the next block. */
    method Turn(own: Pointer, late: nat -> seq<Event>, stretches: nat, ghost first: Holders) returns (p: Option<Pointer>)
      requires Valid() && !accepting && own in leaving
      requires first.Apart() && ComesTo(first, EventsOf(late, stretches), Holding({own}))
      modifies this`freeBlocks, this`activeBlocks, this`statistics, this`leaving, this`outstanding, this`history
      ensures Valid() && Own(p) <= leaving.Keys && Shrinks(old(Now()), Now()) && (p == None ==> freeBlocks == [])
      ensures |freeBlocks| + (if p.Some? then 1 else 0) <= |old(freeBlocks)|
      ensures ComesTo(first, EventsOf(late, stretches + 2), Holding(Own(p)))
    {
      hide Books, TotalSize, SumMap, Peak, BySize, Distinct, Cached, ComesTo, Holders.Apart, Shrinks;
      Others(late(stretches), {own}, first, EventsOf(late, stretches));
      ghost var one := Now();
      CallBackend(own);
      ghost var two := Now();
      ShrinksOn(old(Now()), one, two);
      Others(late(stretches + 1), {}, first, EventsOf(late, stretches + 1));
      ghost var three := Now();
      ShrinksOn(old(Now()), two, three);
      p := TakeOne(first, EventsOf(late, stretches + 2));
      ShrinksOn(old(Now()), three, Now());
    }

    /** The caller's own backend call, which nobody else notices. */
    ghost method CallBackend(own: Pointer)
      requires Valid() && own in leaving
      modifies this`leaving, this`outstanding
      ensures Valid() && Shrinks(old(Now()), Now()) && Holding({}) == old(Holding({own}))
    {
      CountedSame(statistics);
      hide Books, TotalSize, SumMap, Peak, BySize, Distinct, Cached, Counted;
      GiveBack(own);
      assert leaving - {} == old(leaving) - {own};
    }

    /** Shutdown's own turn: the block it takes is in its hands only. */
    method TakeOne(ghost first: Holders, ghost events: seq<Event>) returns (p: Option<Pointer>)
      requires Valid() && ComesTo(first, events, Holding({}))
      modifies this`freeBlocks, this`statistics, this`leaving
      ensures Valid() && Own(p) <= leaving.Keys && Shrinks(old(Now()), Now()) && (p == None ==> freeBlocks == [])
      ensures |freeBlocks| + (if p.Some? then 1 else 0) == |old(freeBlocks)|
      ensures ComesTo(first, events, Holding(Own(p)))
    {
      if freeBlocks == [] {
        p := DrainOne();
        CountedSame(statistics);
        return;
      }
      WithoutCaches(freeBlocks, 0);
      BooksApart(Cached(freeBlocks), activeBlocks, leaving, outstanding);
      TakenAside(first, events, Cached(freeBlocks), activeBlocks, leaving, freeBlocks[0].pointer);
      hide Books, TotalSize, SumMap, Peak, BySize, Distinct, Cached, LowerBound, ComesTo, Holders.Apart;
      p := DrainOne();
    }

    /** A late release, with the backend call that follows it. */
    method ReleaseLate(p: Pointer)
      requires Closed()
      modifies this`activeBlocks, this`freeBlocks, this`statistics, this`leaving, this`history, this`outstanding
      ensures Closed() && activeBlocks == old(activeBlocks) - {p} && leaving == old(leaving)
      ensures history == if p in old(activeBlocks) then old(history) + [statistics.activeBytes] else old(history)
      ensures Counted(statistics, old(statistics))
      ensures outstanding == if p in old(activeBlocks) then old(outstanding) - {p} else old(outstanding)
    {
      ghost var active := p in activeBlocks;
      var toFree := Release(p);
      if toFree {
        GiveBack(p);
        assert leaving == old(leaving);
      }
      assert activeBlocks == old(activeBlocks) - {p};
    }
  }
}
