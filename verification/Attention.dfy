/**
Causal attention over a key-value cache (CorrectnessOracle::causalAttention).
A masked score is absent, where the source writes minus infinity; `scale`
stands for one over the square root of the head dimension.
 */
module Attention {
  import opened Wrappers
  import opened Matrices
  import opened Routing
  import opened Products

  /** One cached token as one head sees it. */
  datatype Entry = Entry(position: nat, key: seq<real>, value: seq<real>)

  /** The cache: positions, and rows of keys and values, one for each token and
      key-value head. */
  datatype Cache = Cache(positions: seq<nat>, keys: seq<real>, values: seq<real>, heads: nat, dimension: nat) {
    predicate Valid() {
      |keys| == |values| == |positions| * heads * dimension
    }
  }

  lemma {:induction false} HeadBound(tokens: nat, heads: nat, t: nat, head: nat)
    requires t < tokens && head < heads
    ensures 0 <= t * heads + head < tokens * heads
  {
    assert (t + 1) * heads <= tokens * heads;
  }

  function EntryAt(c: Cache, head: nat, i: nat): (e: Entry)
    requires c.Valid() && head < c.heads && i < |c.positions|
    ensures |e.key| == |e.value| == c.dimension
  {
    HeadBound(|c.positions|, c.heads, i, head);
    Entry(c.positions[i], Row(c.keys, |c.positions| * c.heads, c.dimension, i * c.heads + head),
          Row(c.values, |c.positions| * c.heads, c.dimension, i * c.heads + head))
  }

  function Entries(c: Cache, head: nat): (r: seq<Entry>)
    requires c.Valid() && head < c.heads
    ensures |r| == |c.positions|
    ensures Sized(r, c.dimension)
  {
    seq(|c.positions|, i requires 0 <= i < |c.positions| => EntryAt(c, head, i))
  }

  predicate Sized(entries: seq<Entry>, dimension: nat) {
    forall i | 0 <= i < |entries| :: |entries[i].key| == |entries[i].value| == dimension
  }

  /** The entries at or before a position, in cache order. */
  function Visible(entries: seq<Entry>, p: nat): seq<Entry> {
    if entries == [] then []
    else if entries[|entries| - 1].position <= p then Visible(entries[..|entries| - 1], p) + [entries[|entries| - 1]]
    else Visible(entries[..|entries| - 1], p)
  }

  lemma {:induction false} VisibleSized(entries: seq<Entry>, p: nat, dimension: nat)
    requires Sized(entries, dimension)
    ensures Sized(Visible(entries, p), dimension)
  {
    if entries != [] {
      VisibleSized(entries[..|entries| - 1], p, dimension);
    }
  }

  // ---- what a head owes for one query ----

  function Score(q: seq<real>, e: Entry, scale: real): real
    requires |e.key| == |q|
  {
    Dot(q, e.key, |q|) * scale
  }

  function Scores(q: seq<real>, entries: seq<Entry>, scale: real): (r: seq<real>)
    requires Sized(entries, |q|)
    ensures |r| == |entries|
  {
    seq(|entries|, i requires 0 <= i < |entries| => Score(q, entries[i], scale))
  }

  function Weighted(weight: real, total: real, value: real): real
    requires total != 0.0
  {
    weight / total * value
  }

  /** The weighted average of the entries' values in one dimension. */
  function Mix(exp: real -> real, scores: seq<real>, entries: seq<Entry>, m: real, total: real, d: nat): real
    requires total != 0.0 && |scores| == |entries|
    requires forall i | 0 <= i < |entries| :: d < |entries[i].value|
  {
    if entries == [] then 0.0
    else
      var n := |entries| - 1;
      Mix(exp, scores[..n], entries[..n], m, total, d) + Weighted(exp(scores[n] - m), total, entries[n].value[d])
  }

  /** None where no key is visible. */
  function Attend(exp: real -> real, scale: real, q: seq<real>, seen: seq<Entry>): (r: Option<seq<real>>)
    requires IsExp(exp) && Sized(seen, |q|)
    ensures r.Some? ==> |r.value| == |q|
  {
    if seen == [] then None
    else
      var scores := Scores(q, seen, scale);
      var m := Maximum(scores);
      ExponentialsPositive(exp, scores, m);
      var total := Sum(Exponentials(exp, scores, m));
      Some(seq(|q|, d requires 0 <= d < |q| => Mix(exp, scores, seen, m, total, d)))
  }

  // ---- the loops ----

  /** The scores that are present, in order. */
  function Kept(scores: seq<Option<real>>): seq<real> {
    if scores == [] then []
    else if scores[|scores| - 1].Some? then Kept(scores[..|scores| - 1]) + [scores[|scores| - 1].value]
    else Kept(scores[..|scores| - 1])
  }

  predicate Masks(scores: seq<Option<real>>, q: seq<real>, entries: seq<Entry>, scale: real, p: nat)
    requires Sized(entries, |q|)
  {
    && |scores| == |entries|
    && forall i | 0 <= i < |scores| ::
         scores[i] == if entries[i].position <= p then Some(Score(q, entries[i], scale)) else None
  }

  lemma {:induction false} KeptIsVisible(scores: seq<Option<real>>, q: seq<real>, entries: seq<Entry>, scale: real,
                                        p: nat)
    requires Sized(entries, |q|) && Masks(scores, q, entries, scale, p)
    ensures Sized(Visible(entries, p), |q|)
    ensures Kept(scores) == Scores(q, Visible(entries, p), scale)
  {
    hide Score;
    VisibleSized(entries, p, |q|);
    if entries != [] {
      var n := |entries| - 1;
      KeptIsVisible(scores[..n], q, entries[..n], scale, p);
    }
  }

  lemma {:induction false} KeptPush(scores: seq<Option<real>>, s: Option<real>)
    ensures Kept(scores + [s]) == if s.Some? then Kept(scores) + [s.value] else Kept(scores)
  {
    assert (scores + [s])[..|scores|] == scores;
  }

  lemma {:induction false} KeptNone()
    ensures Kept([]) == []
  {
  }

  lemma {:induction false} MaximumPush(s: seq<real>, m: Option<real>, x: real)
    requires m.None? ==> s == []
    requires m.Some? ==> IsMaximum(s, m.value)
    ensures IsMaximum(s + [x], if m == None || x > m.value then x else m.value)
  {
    assert (s + [x])[|s|] == x;
    if m.Some? {
      var i :| 0 <= i < |s| && s[i] == m.value;
      assert (s + [x])[i] == m.value;
    }
  }

  lemma {:induction false} MasksNone(q: seq<real>, entries: seq<Entry>, scale: real, p: nat)
    requires entries == []
    ensures Masks([], q, entries, scale, p)
  {
  }

  lemma {:induction false} MasksPush(scores: seq<Option<real>>, q: seq<real>, entries: seq<Entry>, e: Entry,
                                     scale: real, p: nat, s: Option<real>)
    requires Sized(entries, |q|) && |e.key| == |q| == |e.value| && Masks(scores, q, entries, scale, p)
    requires s == if e.position <= p then Some(Score(q, e, scale)) else None
    ensures Sized(entries + [e], |q|)
    ensures Masks(scores + [s], q, entries + [e], scale, p)
  {
    hide Score;
  }

  lemma {:induction false} ScoreIs(q: seq<real>, e: Entry, scale: real, s: real)
    requires |e.key| == |q| && s == Dot(q, e.key, |q|) * scale
    ensures s == Score(q, e, scale)
  {
  }

  /** The first pass: a score for each visible key, and their maximum. */
  method ScoreKeys(q: seq<real>, entries: seq<Entry>, scale: real, p: nat)
    returns (scores: seq<Option<real>>, maximum: Option<real>)
    requires Sized(entries, |q|)
    ensures Masks(scores, q, entries, scale, p)
    ensures maximum.Some? <==> Kept(scores) != []
    ensures maximum.Some? ==> IsMaximum(Kept(scores), maximum.value)
  {
    hide Score, Kept, Maximum, Masks;
    KeptNone();
    scores, maximum := [], None;
    assert Masks(scores, q, entries[..0], scale, p) by {
      MasksNone(q, entries[..0], scale, p);
    }
    for i := 0 to |entries|
      invariant Masks(scores, q, entries[..i], scale, p)
      invariant maximum.Some? <==> Kept(scores) != []
      invariant maximum.Some? ==> IsMaximum(Kept(scores), maximum.value)
    {
      assert entries[..i + 1] == entries[..i] + [entries[i]];
      if entries[i].position > p {
        MasksPush(scores, q, entries[..i], entries[i], scale, p, None);
        KeptPush(scores, None);
        scores := scores + [None];
      } else {
        var dot := DotOf(q, entries[i].key);
        var s := dot * scale;
        ScoreIs(q, entries[i], scale, s);
        MasksPush(scores, q, entries[..i], entries[i], scale, p, Some(s));
        KeptPush(scores, Some(s));
        MaximumPush(Kept(scores), maximum, s);
        scores := scores + [Some(s)];
        maximum := if maximum == None || s > maximum.value then Some(s) else maximum;
      }
    }
    assert entries[..|entries|] == entries;
  }

  method DotOf(x: seq<real>, y: seq<real>) returns (dot: real)
    requires |x| == |y|
    ensures dot == Dot(x, y, |x|)
  {
    dot := 0.0;
    for i := 0 to |x|
      invariant dot == Dot(x, y, i)
    {
      dot := dot + x[i] * y[i];
    }
  }

  lemma {:induction false} NoExponentials(exp: real -> real, m: real)
    ensures Sum(Exponentials(exp, [], m)) == 0.0
  {
  }

  lemma {:induction false} OneMoreExponential(exp: real -> real, s: seq<real>, x: real, m: real)
    ensures Sum(Exponentials(exp, s + [x], m)) == Sum(Exponentials(exp, s, m)) + exp(x - m)
  {
    assert Exponentials(exp, s + [x], m) == Exponentials(exp, s, m) + [exp(x - m)];
    SumPush(Exponentials(exp, s, m), exp(x - m));
  }

  /** The second pass: exponentials in place, zero where masked, and their sum. */
  method ExponentiateKept(exp: real -> real, scores: seq<Option<real>>, m: real)
    returns (weights: seq<real>, total: real)
    ensures |weights| == |scores|
    ensures forall i | 0 <= i < |scores| ::
      weights[i] == if scores[i].Some? then exp(scores[i].value - m) else 0.0
    ensures total == Sum(Exponentials(exp, Kept(scores), m))
  {
    hide Sum, Exponentials;
    weights, total := [], 0.0;
    NoExponentials(exp, m);
    for i := 0 to |scores|
      invariant |weights| == i
      invariant forall j | 0 <= j < i :: weights[j] == if scores[j].Some? then exp(scores[j].value - m) else 0.0
      invariant total == Sum(Exponentials(exp, Kept(scores[..i]), m))
    {
      var weight := if scores[i].Some? then exp(scores[i].value - m) else 0.0;
      assert scores[..i + 1] == scores[..i] + [scores[i]];
      KeptPush(scores[..i], scores[i]);
      if scores[i].Some? {
        OneMoreExponential(exp, Kept(scores[..i]), scores[i].value, m);
      }
      weights, total := weights + [weight], total + weight;
    }
    assert scores[..|scores|] == scores;
  }

  /** Zero weights add nothing: mixing all entries is mixing the visible ones. */
  function MixAll(weights: seq<real>, entries: seq<Entry>, total: real, d: nat): real
    requires total != 0.0 && |weights| == |entries|
    requires forall i | 0 <= i < |entries| :: d < |entries[i].value|
  {
    if entries == [] then 0.0
    else
      var n := |entries| - 1;
      MixAll(weights[..n], entries[..n], total, d) + Weighted(weights[n], total, entries[n].value[d])
  }

  lemma {:induction false} NoWeight(total: real, value: real)
    requires total != 0.0
    ensures Weighted(0.0, total, value) == 0.0
  {
  }

  lemma {:induction false} MixPush(exp: real -> real, q: seq<real>, scale: real, front: seq<Entry>, e: Entry, m: real,
                                   total: real, d: nat)
    requires total != 0.0 && Sized(front, |q|) && d < |q| && |e.key| == |e.value| == |q|
    ensures Sized(front + [e], |q|)
    ensures Mix(exp, Scores(q, front + [e], scale), front + [e], m, total, d)
         == Mix(exp, Scores(q, front, scale), front, m, total, d)
            + Weighted(exp(Score(q, e, scale) - m), total, e.value[d])
  {
    hide Score, Weighted;
    var all := front + [e];
    assert all[..|all| - 1] == front;
    assert Scores(q, all, scale)[..|all| - 1] == Scores(q, front, scale);
  }

  lemma {:induction false} MixAllIsMix(exp: real -> real, weights: seq<real>, scores: seq<Option<real>>, q: seq<real>,
                                       entries: seq<Entry>, scale: real, p: nat, m: real, total: real, d: nat)
    requires total != 0.0 && Sized(entries, |q|) && d < |q| && |weights| == |entries|
    requires Masks(scores, q, entries, scale, p)
    requires forall i | 0 <= i < |scores| ::
      weights[i] == if scores[i].Some? then exp(scores[i].value - m) else 0.0
    ensures Sized(Visible(entries, p), |q|)
    ensures MixAll(weights, entries, total, d)
         == Mix(exp, Scores(q, Visible(entries, p), scale), Visible(entries, p), m, total, d)
  {
    hide Score, Scores, Weighted, Mix;
    VisibleSized(entries, p, |q|);
    if entries == [] {
      MixNone(exp, q, scale, m, total, d);
    } else {
      var n := |entries| - 1;
      var e := entries[n];
      MixAllIsMix(exp, weights[..n], scores[..n], q, entries[..n], scale, p, m, total, d);
      if e.position <= p {
        MixPush(exp, q, scale, Visible(entries[..n], p), e, m, total, d);
      } else {
        NoWeight(total, e.value[d]);
      }
    }
  }

  lemma {:induction false} MixNone(exp: real -> real, q: seq<real>, scale: real, m: real, total: real, d: nat)
    requires total != 0.0
    ensures Mix(exp, Scores(q, [], scale), [], m, total, d) == 0.0
  {
  }

  /** The third pass: every entry added to every dimension by its weight. */
  method Accumulate(weights: seq<real>, entries: seq<Entry>, total: real, dimension: nat) returns (result: seq<real>)
    requires total != 0.0 && |weights| == |entries| && Sized(entries, dimension)
    ensures |result| == dimension
    ensures forall d | 0 <= d < dimension :: result[d] == MixAll(weights, entries, total, d)
  {
    result := seq(dimension, _ => 0.0);
    for i := 0 to |entries|
      invariant |result| == dimension
      invariant forall d | 0 <= d < dimension :: result[d] == MixAll(weights[..i], entries[..i], total, d)
    {
      hide Weighted;
      ghost var before := result;
      for d := 0 to dimension
        invariant |result| == dimension
        invariant forall e | 0 <= e < dimension ::
          result[e] == before[e] + if e < d then Weighted(weights[i], total, entries[i].value[e]) else 0.0
      {
        result := result[d := result[d] + Weighted(weights[i], total, entries[i].value[d])];
      }
      assert weights[..i + 1][..i] == weights[..i] && entries[..i + 1][..i] == entries[..i];
    }
    assert weights[..|entries|] == weights && entries[..|entries|] == entries;
  }

  method AttendRow(exp: real -> real, scale: real, q: seq<real>, entries: seq<Entry>, p: nat)
    returns (r: Option<seq<real>>)
    requires IsExp(exp) && Sized(entries, |q|)
    ensures Sized(Visible(entries, p), |q|)
    ensures r == Attend(exp, scale, q, Visible(entries, p))
  {
    hide Mix, MixAll, Sum, Maximum, Score;
    var scores, maximum := ScoreKeys(q, entries, scale, p);
    KeptIsVisible(scores, q, entries, scale, p);
    if maximum == None {
      assert |Scores(q, Visible(entries, p), scale)| == 0;
      return None;
    }
    ghost var seen := Visible(entries, p);
    MaximumUnique(Scores(q, seen, scale), maximum.value);
    var weights, total := ExponentiateKept(exp, scores, maximum.value);
    ExponentialsPositive(exp, Scores(q, seen, scale), maximum.value);
    var result := Accumulate(weights, entries, total, |q|);
    forall d | 0 <= d < |q|
      ensures result[d] == Mix(exp, Scores(q, seen, scale), seen, maximum.value, total, d)
    {
      MixAllIsMix(exp, weights, scores, q, entries, scale, p, maximum.value, total, d);
    }
    assert result == Attend(exp, scale, q, seen).value;
    r := Some(result);
  }

  // ---- the whole batch ----

  /** The heads that share a key-value head. */
  predicate ValidHeads(heads: nat, c: Cache) {
    heads > 0 && c.heads > 0 && c.dimension > 0 && heads % c.heads == 0 && c.Valid()
  }

  lemma {:induction false} KeyHeadBound(heads: nat, keyHeads: nat, head: nat)
    requires keyHeads > 0 && head < heads && heads % keyHeads == 0
    ensures heads / keyHeads > 0 && head / (heads / keyHeads) < keyHeads
  {
    var per := heads / keyHeads;
    assert per * keyHeads == heads;
    assert per > 0;
    var k := head / per;
    assert k * per <= head;
    assert k >= keyHeads ==> k * per >= keyHeads * per;
  }

  /** What one head of one token is owed: attention over the entries at or
      before the token's position. */
  function HeadRow(exp: real -> real, scale: real, q: seq<real>, heads: nat, c: Cache, head: nat, p: nat)
    : (r: Option<seq<real>>)
    requires IsExp(exp) && ValidHeads(heads, c) && |q| == c.dimension && head < heads
    ensures r.Some? ==> |r.value| == c.dimension
  {
    KeyHeadBound(heads, c.heads, head);
    var entries := Entries(c, head / (heads / c.heads));
    VisibleSized(entries, p, c.dimension);
    Attend(exp, scale, q, Visible(entries, p))
  }

  /** Row i of a batch belongs to token i / heads and head i % heads; the
      token's position is its number plus the offset of the batch. */
  function BatchRow(exp: real -> real, scale: real, q: seq<real>, heads: nat, c: Cache, offset: nat, i: nat)
    : (r: Option<seq<real>>)
    requires IsExp(exp) && ValidHeads(heads, c) && |q| == c.dimension
    ensures r.Some? ==> |r.value| == c.dimension
  {
    HeadRow(exp, scale, q, heads, c, i % heads, offset + i / heads)
  }

  predicate Widths(rows: seq<seq<real>>, width: nat) {
    forall i | 0 <= i < |rows| :: |rows[i]| == width
  }

  /** The result of a batch, row by row. */
  ghost predicate IsAttention(exp: real -> real, scale: real, query: seq<seq<real>>, heads: nat, c: Cache,
                              offset: nat, result: seq<seq<real>>)
    requires IsExp(exp) && ValidHeads(heads, c) && Widths(query, c.dimension)
  {
    && |result| == |query|
    && forall i | 0 <= i < |query| :: BatchRow(exp, scale, query[i], heads, c, offset, i) == Some(result[i])
  }

  /** The first row of a token. */
  function Base(t: nat, heads: nat): nat {
    t * heads
  }

  lemma {:induction false} RowNumber(heads: nat, t: nat, head: nat)
    requires head < heads
    ensures (Base(t, heads) + head) / heads == t && (Base(t, heads) + head) % heads == head
  {
    var i := Base(t, heads) + head;
    var k := i / heads - t;
    assert k * heads == head - i % heads;
    SmallMultiple(k, heads);
  }

  lemma {:induction false} TokenBound(i: nat, tokens: nat, heads: nat)
    requires i < Base(tokens, heads)
    ensures heads > 0 && i / heads < tokens
    ensures Base(i / heads, heads) <= i < Base(i / heads, heads) + heads
  {
    assert heads > 0;
    var k := i / heads;
    assert k >= tokens ==> k * heads >= tokens * heads;
  }

  lemma {:induction false} TokenOf(i: nat, tokens: nat, heads: nat) returns (t: nat)
    requires i < Base(tokens, heads)
    ensures t < tokens && Base(t, heads) <= i < Base(t, heads) + heads
  {
    hide Base;
    TokenBound(i, tokens, heads);
    t := i / heads;
  }

  lemma {:induction false} NextBase(t: nat, tokens: nat, heads: nat)
    requires t < tokens
    ensures Base(0, heads) == 0
    ensures Base(t, heads) + heads == Base(t + 1, heads) <= Base(tokens, heads)
  {
  }

  /** Invalid dimensions, or a token that sees no key. */
  datatype AttentionError = WrongShape | NoVisibleKey

  /** The loops over tokens and heads. */
  method CausalAttention(exp: real -> real, scale: real, query: seq<seq<real>>, tokens: nat, heads: nat, c: Cache,
                         offset: nat)
    returns (r: Result<seq<seq<real>>, AttentionError>)
    requires IsExp(exp)
    ensures r == Err(WrongShape) <==>
      !(tokens > 0 && ValidHeads(heads, c) && |query| == Base(tokens, heads) && Widths(query, c.dimension))
    ensures r == Err(NoVisibleKey) ==> exists i | 0 <= i < |query| ::
      BatchRow(exp, scale, query[i], heads, c, offset, i) == None
    ensures r.Ok? ==> IsAttention(exp, scale, query, heads, c, offset, r.value)
  {
    if tokens == 0 || !ValidHeads(heads, c) || |query| != Base(tokens, heads) || !Widths(query, c.dimension) {
      return Err(WrongShape);
    }
    hide Base, BatchRow;
    var result: seq<seq<real>> := [];
    NextBase(0, tokens, heads);
    for t := 0 to tokens
      invariant |result| == Base(t, heads) <= |query|
      invariant forall i | 0 <= i < |result| :: BatchRow(exp, scale, query[i], heads, c, offset, i) == Some(result[i])
    {
      NextBase(t, tokens, heads);
      var base := |result|;
      for head := 0 to heads
        invariant |result| == base + head && base + heads <= |query|
        invariant forall i | 0 <= i < |result| :: BatchRow(exp, scale, query[i], heads, c, offset, i) == Some(result[i])
      {
        var row := AttendHead(exp, scale, query[|result|], heads, c, offset, t, head);
        if row == None {
          return Err(NoVisibleKey);
        }
        result := result + [row.value];
      }
    }
    r := Ok(result);
  }

  method AttendHead(exp: real -> real, scale: real, q: seq<real>, heads: nat, c: Cache, offset: nat, t: nat, head: nat)
    returns (r: Option<seq<real>>)
    requires IsExp(exp) && ValidHeads(heads, c) && |q| == c.dimension && head < heads
    ensures r == BatchRow(exp, scale, q, heads, c, offset, Base(t, heads) + head)
  {
    hide Base, Visible, Entries, Attend;
    RowNumber(heads, t, head);
    KeyHeadBound(heads, c.heads, head);
    var entries := Entries(c, head / (heads / c.heads));
    VisibleSized(entries, offset + t, c.dimension);
    r := AttendRow(exp, scale, q, entries, offset + t);
  }

  // ---- laws ----

  /** Two caches that show the same entries to every position of a batch. */
  ghost predicate LookAlike(c: Cache, d: Cache, low: nat, high: nat) {
    && c.Valid() && d.Valid() && c.heads == d.heads && c.dimension == d.dimension
    && forall head, p | 0 <= head < c.heads && low <= p < high ::
         Visible(Entries(c, head), p) == Visible(Entries(d, head), p)
  }

  lemma {:induction false} LaterKeysHead(exp: real -> real, scale: real, q: seq<real>, heads: nat, c: Cache, d: Cache,
                                         head: nat, low: nat, high: nat, p: nat)
    requires IsExp(exp) && ValidHeads(heads, c) && |q| == c.dimension && head < heads && low <= p < high
    requires LookAlike(c, d, low, high)
    ensures ValidHeads(heads, d)
    ensures HeadRow(exp, scale, q, heads, c, head, p) == HeadRow(exp, scale, q, heads, d, head, p)
  {
    hide Visible, Entries, Attend;
    KeyHeadBound(heads, c.heads, head);
  }

  lemma {:induction false} LaterKeysRow(exp: real -> real, scale: real, q: seq<real>, heads: nat, c: Cache, d: Cache,
                                        offset: nat, tokens: nat, i: nat)
    requires IsExp(exp) && ValidHeads(heads, c) && |q| == c.dimension && i < Base(tokens, heads)
    requires LookAlike(c, d, offset, offset + tokens)
    ensures ValidHeads(heads, d)
    ensures BatchRow(exp, scale, q, heads, c, offset, i) == BatchRow(exp, scale, q, heads, d, offset, i)
  {
    hide Base, HeadRow, LookAlike;
    TokenBound(i, tokens, heads);
    LaterKeysHead(exp, scale, q, heads, c, d, i % heads, offset, offset + tokens, offset + i / heads);
  }

  /** A batch has the same rows over two caches whose visible entries agree. */
  lemma {:induction false} SameVisibleSameRows(exp: real -> real, scale: real, query: seq<seq<real>>, heads: nat,
                                               c: Cache, d: Cache, offset: nat, tokens: nat, result: seq<seq<real>>)
    requires IsExp(exp) && ValidHeads(heads, c) && Widths(query, c.dimension) && |query| == Base(tokens, heads)
    requires LookAlike(c, d, offset, offset + tokens)
    ensures ValidHeads(heads, d)
    ensures IsAttention(exp, scale, query, heads, c, offset, result)
       <==> IsAttention(exp, scale, query, heads, d, offset, result)
  {
    hide BatchRow, Base;
    forall i | 0 <= i < |query|
      ensures BatchRow(exp, scale, query[i], heads, c, offset, i) == BatchRow(exp, scale, query[i], heads, d, offset, i)
    {
      LaterKeysRow(exp, scale, query[i], heads, c, d, offset, tokens, i);
    }
  }

  lemma {:induction false} ShiftedRow(exp: real -> real, scale: real, q: seq<real>, heads: nat, c: Cache, offset: nat,
                                      m: nat, i: nat)
    requires IsExp(exp) && ValidHeads(heads, c) && |q| == c.dimension
    ensures BatchRow(exp, scale, q, heads, c, offset + m, i)
         == BatchRow(exp, scale, q, heads, c, offset, Base(m, heads) + i)
  {
    hide HeadRow;
    RowNumber(heads, m + i / heads, i % heads);
    assert Base(m + i / heads, heads) + i % heads == Base(m, heads) + i;
  }

  /** A batch may be split at any token, the second part moved on by as many
      positions. */
  lemma {:induction false} BatchSplits(exp: real -> real, scale: real, query: seq<seq<real>>, heads: nat, c: Cache,
                                       offset: nat, m: nat, result: seq<seq<real>>)
    requires IsExp(exp) && ValidHeads(heads, c) && Widths(query, c.dimension)
    requires |query| == |result| >= Base(m, heads)
    ensures IsAttention(exp, scale, query, heads, c, offset, result) <==>
      && IsAttention(exp, scale, query[..Base(m, heads)], heads, c, offset, result[..Base(m, heads)])
      && IsAttention(exp, scale, query[Base(m, heads)..], heads, c, offset + m, result[Base(m, heads)..])
  {
    hide BatchRow, Base;
    var cut := Base(m, heads);
    var q1, q2, r1, r2 := query[..cut], query[cut..], result[..cut], result[cut..];
    forall i | 0 <= i < |q2|
      ensures BatchRow(exp, scale, q2[i], heads, c, offset + m, i)
           == BatchRow(exp, scale, query[cut + i], heads, c, offset, cut + i)
    {
      ShiftedRow(exp, scale, q2[i], heads, c, offset, m, i);
    }
    assert forall i | 0 <= i < |q1| :: q1[i] == query[i] && r1[i] == result[i];
    assert forall i | cut <= i < |query| :: query[i] == q2[i - cut] && result[i] == r2[i - cut];
  }

  /** The cache after its first k tokens. */
  function Prefix(c: Cache, k: nat): (r: Cache)
    requires c.Valid() && k <= |c.positions|
    ensures r.Valid()
  {
    PrefixBound(k, |c.positions|, c.heads, c.dimension);
    Cache(c.positions[..k], c.keys[..k * c.heads * c.dimension], c.values[..k * c.heads * c.dimension],
          c.heads, c.dimension)
  }

  lemma {:induction false} PrefixBound(k: nat, n: nat, heads: nat, dimension: nat)
    requires k <= n
    ensures 0 <= k * heads * dimension <= n * heads * dimension
  {
    assert k * heads <= n * heads;
    assert (n * heads - k * heads) * dimension >= 0;
  }

  lemma {:induction false} PrefixEntries(c: Cache, k: nat, head: nat)
    requires c.Valid() && k <= |c.positions| && head < c.heads
    ensures Entries(Prefix(c, k), head) == Entries(c, head)[..k]
  {
    PrefixBound(k, |c.positions|, c.heads, c.dimension);
    forall i | 0 <= i < k
      ensures EntryAt(Prefix(c, k), head, i) == EntryAt(c, head, i)
    {
      PrefixRow(c.keys, |c.positions| * c.heads, k * c.heads, c.dimension, i * c.heads + head, k, i, c.heads, head);
      PrefixRow(c.values, |c.positions| * c.heads, k * c.heads, c.dimension, i * c.heads + head, k, i, c.heads, head);
    }
  }

  lemma {:induction false} PrefixRow(values: seq<real>, rows: nat, shorter: nat, width: nat, r: nat, k: nat, i: nat,
                                     heads: nat, head: nat)
    requires |values| == rows * width && shorter == k * heads <= rows && shorter * width <= rows * width
    requires i < k && head < heads && r == i * heads + head
    ensures r < shorter
    ensures Row(values[..shorter * width], shorter, width, r) == Row(values, rows, width, r)
  {
    HeadBound(k, heads, i, head);
    forall h | 0 <= h < width
      ensures Cell(values[..shorter * width], shorter, width, r, h) == Cell(values, rows, width, r, h)
    {
      CellBound(shorter, width, r, h);
    }
  }

  lemma {:induction false} VisiblePrefix(entries: seq<Entry>, k: nat, p: nat)
    requires k <= |entries| && forall i | k <= i < |entries| :: entries[i].position > p
    ensures Visible(entries, p) == Visible(entries[..k], p)
  {
    if k == |entries| {
      assert entries[..k] == entries;
    } else {
      VisiblePrefix(entries[..|entries| - 1], k, p);
      assert entries[..|entries| - 1][..k] == entries[..k];
    }
  }

  /** While decoding, step t sees the cache as it stands then: the tokens
      cached later all stand at later positions. */
  predicate GrowsWith(c: Cache, offset: nat, sizes: seq<nat>) {
    forall t | 0 <= t < |sizes| ::
      sizes[t] <= |c.positions| && forall i | sizes[t] <= i < |c.positions| :: c.positions[i] > offset + t
  }

  lemma {:induction false} PrefixLooksAlike(c: Cache, k: nat, p: nat)
    requires c.Valid() && k <= |c.positions| && forall i | k <= i < |c.positions| :: c.positions[i] > p
    ensures LookAlike(c, Prefix(c, k), p, p + 1)
  {
    forall head | 0 <= head < c.heads
      ensures Visible(Entries(c, head), p) == Visible(Entries(Prefix(c, k), head), p)
    {
      PrefixEntries(c, k, head);
      assert forall i | k <= i < |c.positions| :: Entries(c, head)[i].position == c.positions[i];
      VisiblePrefix(Entries(c, head), k, p);
    }
  }

  /** One decoding step: one token, over the cache of its time. */
  ghost predicate StepAttends(exp: real -> real, scale: real, query: seq<seq<real>>, heads: nat, c: Cache,
                              offset: nat, sizes: seq<nat>, result: seq<seq<real>>, t: nat)
    requires IsExp(exp) && ValidHeads(heads, c) && Widths(query, c.dimension)
    requires |query| == |result| == Base(|sizes|, heads) && GrowsWith(c, offset, sizes) && t < |sizes|
  {
    NextBase(t, |sizes|, heads);
    IsAttention(exp, scale, query[Base(t, heads)..Base(t, heads) + heads], heads, Prefix(c, sizes[t]), offset + t,
                result[Base(t, heads)..Base(t, heads) + heads])
  }

  /** The rows of one token are right. */
  ghost predicate TokenAttends(exp: real -> real, scale: real, query: seq<seq<real>>, heads: nat, c: Cache,
                               offset: nat, result: seq<seq<real>>, base: nat)
    requires IsExp(exp) && ValidHeads(heads, c) && Widths(query, c.dimension)
    requires |query| == |result| >= base + heads
  {
    forall i | base <= i < base + heads :: BatchRow(exp, scale, query[i], heads, c, offset, i) == Some(result[i])
  }

  lemma {:induction false} StepIsItsRows(exp: real -> real, scale: real, query: seq<seq<real>>, heads: nat, c: Cache,
                                         offset: nat, sizes: seq<nat>, result: seq<seq<real>>, t: nat)
    requires IsExp(exp) && ValidHeads(heads, c) && Widths(query, c.dimension)
    requires |query| == |result| == Base(|sizes|, heads) && GrowsWith(c, offset, sizes) && t < |sizes|
    ensures Base(t, heads) + heads <= |query|
    ensures StepAttends(exp, scale, query, heads, c, offset, sizes, result, t)
       <==> TokenAttends(exp, scale, query, heads, c, offset, result, Base(t, heads))
  {
    hide BatchRow, Base, Prefix, LookAlike, Entries, Cache.Valid;
    NextBase(0, 1, heads);
    NextBase(t, |sizes|, heads);
    var base := Base(t, heads);
    var q, r := query[base..base + heads], result[base..base + heads];
    PrefixLooksAlike(c, sizes[t], offset + t);
    SameVisibleSameRows(exp, scale, q, heads, c, Prefix(c, sizes[t]), offset + t, 1, r);
    forall head | 0 <= head < heads
      ensures BatchRow(exp, scale, q[head], heads, c, offset + t, head)
           == BatchRow(exp, scale, query[base + head], heads, c, offset, base + head)
    {
      ShiftedRow(exp, scale, q[head], heads, c, offset, t, head);
    }
    assert forall i | base <= i < base + heads :: query[i] == q[i - base] && result[i] == r[i - base];
  }

  /** Prefill equals decoding: the rows of a batch over the final cache are the
      rows that step-by-step decoding gives, each token over the cache as it
      stood at its step. */
  lemma {:induction false} PrefillIsDecoding(exp: real -> real, scale: real, query: seq<seq<real>>, heads: nat,
                                             c: Cache, offset: nat, sizes: seq<nat>, result: seq<seq<real>>)
    requires IsExp(exp) && ValidHeads(heads, c) && Widths(query, c.dimension)
    requires |query| == |result| == Base(|sizes|, heads) && GrowsWith(c, offset, sizes)
    ensures IsAttention(exp, scale, query, heads, c, offset, result) <==>
      forall t | 0 <= t < |sizes| :: StepAttends(exp, scale, query, heads, c, offset, sizes, result, t)
  {
    hide BatchRow, Base, StepAttends, TokenAttends, IsAttention;
    forall t | 0 <= t < |sizes|
      ensures Base(t, heads) + heads <= |query|
      ensures StepAttends(exp, scale, query, heads, c, offset, sizes, result, t)
         <==> TokenAttends(exp, scale, query, heads, c, offset, result, Base(t, heads))
    {
      StepIsItsRows(exp, scale, query, heads, c, offset, sizes, result, t);
    }
    if IsAttention(exp, scale, query, heads, c, offset, result) {
      forall t | 0 <= t < |sizes| ensures StepAttends(exp, scale, query, heads, c, offset, sizes, result, t) {
        StepIsItsRows(exp, scale, query, heads, c, offset, sizes, result, t);
        TokenOfAll(exp, scale, query, heads, c, offset, result, Base(t, heads));
      }
    }
    if forall t | 0 <= t < |sizes| :: StepAttends(exp, scale, query, heads, c, offset, sizes, result, t) {
      forall i | 0 <= i < |query|
        ensures BatchRow(exp, scale, query[i], heads, c, offset, i) == Some(result[i])
      {
        var t := TokenOf(i, |sizes|, heads);
        assert StepAttends(exp, scale, query, heads, c, offset, sizes, result, t);
        RowOfToken(exp, scale, query, heads, c, offset, result, Base(t, heads), i);
      }
      AllRowsAttend(exp, scale, query, heads, c, offset, result);
    }
  }

  lemma {:induction false} TokenOfAll(exp: real -> real, scale: real, query: seq<seq<real>>, heads: nat, c: Cache,
                                      offset: nat, result: seq<seq<real>>, base: nat)
    requires IsExp(exp) && ValidHeads(heads, c) && Widths(query, c.dimension)
    requires |query| == |result| >= base + heads && IsAttention(exp, scale, query, heads, c, offset, result)
    ensures TokenAttends(exp, scale, query, heads, c, offset, result, base)
  {
    hide BatchRow;
  }

  lemma {:induction false} RowOfToken(exp: real -> real, scale: real, query: seq<seq<real>>, heads: nat, c: Cache,
                                      offset: nat, result: seq<seq<real>>, base: nat, i: nat)
    requires IsExp(exp) && ValidHeads(heads, c) && Widths(query, c.dimension)
    requires |query| == |result| >= base + heads && TokenAttends(exp, scale, query, heads, c, offset, result, base)
    requires base <= i < base + heads
    ensures BatchRow(exp, scale, query[i], heads, c, offset, i) == Some(result[i])
  {
    hide BatchRow;
  }

  lemma {:induction false} AllRowsAttend(exp: real -> real, scale: real, query: seq<seq<real>>, heads: nat, c: Cache,
                                         offset: nat, result: seq<seq<real>>)
    requires IsExp(exp) && ValidHeads(heads, c) && Widths(query, c.dimension) && |query| == |result|
    requires forall i | 0 <= i < |query| :: BatchRow(exp, scale, query[i], heads, c, offset, i) == Some(result[i])
    ensures IsAttention(exp, scale, query, heads, c, offset, result)
  {
    hide BatchRow;
  }

  // ---- removing and adding tokens ----

  /** Where token i's keys start. */
  function Stride(i: nat, heads: nat, dimension: nat): nat {
    i * heads * dimension
  }

  lemma {:induction false} StrideStep(i: nat, n: nat, heads: nat, dimension: nat)
    requires i < n
    ensures Stride(i, heads, dimension) + heads * dimension == Stride(i + 1, heads, dimension)
    ensures Stride(i + 1, heads, dimension) <= Stride(n, heads, dimension)
    ensures Stride(n - 1, heads, dimension) + heads * dimension == Stride(n, heads, dimension)
  {
    Distribute(i, heads, dimension);
    Distribute(n - 1, heads, dimension);
    PrefixBound(i + 1, n, heads, dimension);
  }

  lemma {:induction false} Distribute(i: nat, heads: nat, dimension: nat)
    ensures i * heads * dimension + heads * dimension == (i + 1) * heads * dimension
  {
    assert (i + 1) * heads == i * heads + heads;
  }

  /** A buffer without token i. */
  function Cut(values: seq<real>, n: nat, heads: nat, dimension: nat, i: nat): (r: seq<real>)
    requires |values| == Stride(n, heads, dimension) && i < n
    ensures |r| == Stride(n - 1, heads, dimension)
  {
    StrideStep(i, n, heads, dimension);
    values[..Stride(i, heads, dimension)] + values[Stride(i + 1, heads, dimension)..]
  }

  /** The cache without token i. */
  function Without(c: Cache, i: nat): (r: Cache)
    requires c.Valid() && i < |c.positions|
    ensures r.Valid() && r.heads == c.heads && r.dimension == c.dimension
  {
    var n := |c.positions|;
    Cache(c.positions[..i] + c.positions[i + 1..], Cut(c.keys, n, c.heads, c.dimension, i),
          Cut(c.values, n, c.heads, c.dimension, i), c.heads, c.dimension)
  }

  /** A cell of token j stands inside that token's stretch. */
  lemma {:induction false} CellPlace(j: nat, n: nat, heads: nat, head: nat, dimension: nat, h: nat)
    requires j < n && head < heads && h < dimension
    ensures j * heads + head < n * heads
    ensures (j * heads + head) * dimension + h == Stride(j, heads, dimension) + (head * dimension + h)
    ensures head * dimension + h < heads * dimension
  {
    HeadBound(n, heads, j, head);
    CellBound(heads, dimension, head, h);
    assert (j * heads + head) * dimension == j * heads * dimension + head * dimension;
  }

  /** Row r of the shorter buffer, of n - 1 tokens, is row s of the longer. */
  ghost predicate SameToken(n: nat, heads: nat, i: nat, j: nat, head: nat, shorter: nat, r: nat, longer: nat, s: nat) {
    && i < n && j < n - 1 && head < heads
    && shorter == (n - 1) * heads && longer == n * heads
    && r == j * heads + head < shorter && s == (if j < i then j else j + 1) * heads + head < longer
  }

  lemma {:induction false} CutRow(values: seq<real>, n: nat, heads: nat, dimension: nat, i: nat, j: nat, head: nat,
                                  shorter: nat, r: nat, longer: nat, s: nat)
    requires SameToken(n, heads, i, j, head, shorter, r, longer, s)
    requires i < n && |values| == Stride(n, heads, dimension)
    requires r < shorter && |Cut(values, n, heads, dimension, i)| == shorter * dimension
    requires s < longer && |values| == longer * dimension
    ensures Row(Cut(values, n, heads, dimension, i), shorter, dimension, r) == Row(values, longer, dimension, s)
  {
    hide Cut, Stride, Cell, SameToken;
    var cut, whole := Row(Cut(values, n, heads, dimension, i), shorter, dimension, r), Row(values, longer, dimension, s);
    forall h | 0 <= h < dimension ensures cut[h] == whole[h] {
      CutCell(values, n, heads, dimension, i, j, head, h, shorter, r, longer, s);
    }
  }

  lemma {:induction false} CutCell(values: seq<real>, n: nat, heads: nat, dimension: nat, i: nat, j: nat, head: nat,
                                   h: nat, shorter: nat, r: nat, longer: nat, s: nat)
    requires SameToken(n, heads, i, j, head, shorter, r, longer, s) && h < dimension
    requires i < n && |values| == Stride(n, heads, dimension)
    requires r < shorter && |Cut(values, n, heads, dimension, i)| == shorter * dimension
    requires s < longer && |values| == longer * dimension
    ensures Cell(Cut(values, n, heads, dimension, i), shorter, dimension, r, h) == Cell(values, longer, dimension, s, h)
  {
    hide Cut, Stride;
    CellPlace(j, n - 1, heads, head, dimension, h);
    CellPlace(if j < i then j else j + 1, n, heads, head, dimension, h);
    CutAt(values, n, heads, dimension, i, j, head * dimension + h);
  }

  lemma {:induction false} StrideIs(n: nat, heads: nat, dimension: nat)
    ensures Stride(n, heads, dimension) == n * heads * dimension
  {
  }

  /** Place x of token j in the shorter buffer is place x of its token in the longer. */
  lemma {:induction false} CutAt(values: seq<real>, n: nat, heads: nat, dimension: nat, i: nat, j: nat, x: nat)
    requires |values| == Stride(n, heads, dimension) && i < n && j < n - 1 && x < heads * dimension
    ensures var from := if j < i then j else j + 1;
      && Stride(j, heads, dimension) + x < Stride(n - 1, heads, dimension)
      && Stride(from, heads, dimension) + x < |values|
      && Cut(values, n, heads, dimension, i)[Stride(j, heads, dimension) + x]
         == values[Stride(from, heads, dimension) + x]
  {
    hide Stride;
    StrideStep(i, n, heads, dimension);
    StrideStep(j, n - 1, heads, dimension);
    StrideStep(j + 1, n, heads, dimension);
    StrideStep(j, n, heads, dimension);
    if j < i {
      StrideStep(j, i, heads, dimension);
    } else {
      StrideGrows(i, j, heads, dimension);
    }
  }

  lemma {:induction false} StrideGrows(i: nat, j: nat, heads: nat, dimension: nat)
    requires i <= j
    ensures Stride(i, heads, dimension) <= Stride(j, heads, dimension)
  {
    PrefixBound(i, j, heads, dimension);
  }

  lemma {:induction false} WithoutEntry(c: Cache, i: nat, head: nat, j: nat)
    requires c.Valid() && i < |c.positions| && head < c.heads && j < |c.positions| - 1
    ensures EntryAt(Without(c, i), head, j) == EntryAt(c, head, if j < i then j else j + 1)
  {
    hide Cut, Stride, Row;
    var n := |c.positions|;
    StrideIs(n, c.heads, c.dimension);
    StrideIs(n - 1, c.heads, c.dimension);
    var from := if j < i then j else j + 1;
    HeadBound(n - 1, c.heads, j, head);
    HeadBound(n, c.heads, from, head);
    CutRow(c.keys, n, c.heads, c.dimension, i, j, head, (n - 1) * c.heads, j * c.heads + head, n * c.heads,
           from * c.heads + head);
    CutRow(c.values, n, c.heads, c.dimension, i, j, head, (n - 1) * c.heads, j * c.heads + head, n * c.heads,
           from * c.heads + head);
  }

  lemma {:induction false} WithoutEntries(c: Cache, i: nat, head: nat)
    requires c.Valid() && i < |c.positions| && head < c.heads
    ensures Entries(Without(c, i), head) == Entries(c, head)[..i] + Entries(c, head)[i + 1..]
  {
    var n, d := |c.positions|, Without(c, i);
    assert |d.positions| == n - 1;
    hide EntryAt, Without, Cache.Valid, Row;
    forall j | 0 <= j < n - 1
      ensures EntryAt(d, head, j) == EntryAt(c, head, if j < i then j else j + 1)
    {
      WithoutEntry(c, i, head, j);
    }
  }

  lemma {:induction false} VisibleAppend(a: seq<Entry>, b: seq<Entry>, p: nat)
    ensures Visible(a + b, p) == Visible(a, p) + Visible(b, p)
  {
    if b == [] {
      assert a + b == a;
    } else {
      VisibleAppend(a, b[..|b| - 1], p);
      assert (a + b)[..|a + b| - 1] == a + b[..|b| - 1];
    }
  }

  /** An entry that cannot be seen may be left out. */
  lemma {:induction false} VisibleWithout(e: seq<Entry>, i: nat, p: nat)
    requires i < |e| && e[i].position > p
    ensures Visible(e[..i] + e[i + 1..], p) == Visible(e, p)
  {
    hide Visible;
    assert e == e[..i] + ([e[i]] + e[i + 1..]);
    VisibleAppend(e[..i], [e[i]] + e[i + 1..], p);
    VisibleAppend([e[i]], e[i + 1..], p);
    HiddenOne(e[i], p);
    VisibleAppend(e[..i], e[i + 1..], p);
  }

  lemma {:induction false} EntryPosition(c: Cache, head: nat, i: nat)
    requires c.Valid() && i < |c.positions| && head < c.heads
    ensures i < |Entries(c, head)| && Entries(c, head)[i].position == c.positions[i]
  {
    hide Row;
  }

  /** A later token may be removed from anywhere in the cache. */
  lemma {:induction false} WithoutLooksAlike(c: Cache, i: nat, low: nat, high: nat)
    requires c.Valid() && i < |c.positions| && c.positions[i] >= high
    ensures LookAlike(c, Without(c, i), low, high)
  {
    hide Visible, Without, Entries;
    forall head, p | 0 <= head < c.heads && low <= p < high
      ensures Visible(Entries(c, head), p) == Visible(Entries(Without(c, i), head), p)
    {
      WithoutEntries(c, i, head);
      EntryPosition(c, head, i);
      VisibleWithout(Entries(c, head), i, p);
    }
  }

  lemma {:induction false} HiddenOne(e: Entry, p: nat)
    requires e.position > p
    ensures Visible([e], p) == []
  {
  }

  /** The cache without the tokens at or after a position, among its first n;
      the tokens behind those stay. */
  function Stripped(c: Cache, limit: nat, n: nat): (r: Cache)
    requires c.Valid() && n <= |c.positions|
    ensures r.Valid() && r.heads == c.heads && r.dimension == c.dimension
    decreases n
  {
    if n == 0 then c
    else if c.positions[n - 1] >= limit then Stripped(Without(c, n - 1), limit, n - 1)
    else Stripped(c, limit, n - 1)
  }

  lemma {:induction false} LooksAlikeOn(c: Cache, d: Cache, e: Cache, low: nat, high: nat)
    requires LookAlike(c, d, low, high) && LookAlike(d, e, low, high)
    ensures LookAlike(c, e, low, high)
  {
    hide Visible, Entries;
  }

  lemma {:induction false} StrippedLooksAlike(c: Cache, low: nat, high: nat, n: nat)
    requires c.Valid() && n <= |c.positions|
    ensures LookAlike(c, Stripped(c, high, n), low, high)
    decreases n
  {
    if n > 0 {
      hide Without, LookAlike;
      if c.positions[n - 1] >= high {
        WithoutLooksAlike(c, n - 1, low, high);
        WithoutSize(c, n - 1);
        StrippedLooksAlike(Without(c, n - 1), low, high, n - 1);
        LooksAlikeOn(c, Without(c, n - 1), Stripped(c, high, n), low, high);
      } else {
        StrippedLooksAlike(c, low, high, n - 1);
      }
    }
  }

  lemma {:induction false} WithoutSize(c: Cache, i: nat)
    requires c.Valid() && i < |c.positions|
    ensures |Without(c, i).positions| == |c.positions| - 1
    ensures Without(c, i).positions == c.positions[..i] + c.positions[i + 1..]
  {
  }

  /** What stripping all tokens leaves: the earlier positions, in order. */
  function Earlier(positions: seq<nat>, limit: nat): seq<nat> {
    if positions == [] then []
    else Earlier(positions[..|positions| - 1], limit)
         + if positions[|positions| - 1] < limit then [positions[|positions| - 1]] else []
  }

  lemma {:induction false} StrippedKeepsEarlier(c: Cache, limit: nat, n: nat)
    requires c.Valid() && n <= |c.positions|
    ensures Stripped(c, limit, n).positions == Earlier(c.positions[..n], limit) + c.positions[n..]
    decreases n
  {
    hide Without;
    if n > 0 {
      assert c.positions[..n][..n - 1] == c.positions[..n - 1];
      if c.positions[n - 1] >= limit {
        WithoutSize(c, n - 1);
        StrippedKeepsEarlier(Without(c, n - 1), limit, n - 1);
        assert Without(c, n - 1).positions[..n - 1] == c.positions[..n - 1];
      } else {
        StrippedKeepsEarlier(c, limit, n - 1);
      }
    } else {
      assert c.positions[..0] == [];
    }
  }

  /** Keys and values at later positions do not matter: two caches that are the
      same once their tokens at or after the batch's last position are removed
      give the same rows, whatever later tokens either holds and wherever they
      stand. So later tokens may be removed, added or changed. */
  lemma {:induction false} LaterKeysDoNotMatter(exp: real -> real, scale: real, query: seq<seq<real>>, heads: nat,
                                                c: Cache, d: Cache, offset: nat, tokens: nat, result: seq<seq<real>>)
    requires IsExp(exp) && ValidHeads(heads, c) && Widths(query, c.dimension) && |query| == Base(tokens, heads)
    requires d.Valid()
    requires Stripped(c, offset + tokens, |c.positions|) == Stripped(d, offset + tokens, |d.positions|)
    ensures ValidHeads(heads, d)
    ensures IsAttention(exp, scale, query, heads, c, offset, result)
       <==> IsAttention(exp, scale, query, heads, d, offset, result)
  {
    hide IsAttention, Stripped, Base, LookAlike;
    StrippedLooksAlike(c, offset, offset + tokens, |c.positions|);
    StrippedLooksAlike(d, offset, offset + tokens, |d.positions|);
    LooksAlikeBack(d, Stripped(d, offset + tokens, |d.positions|), offset, offset + tokens);
    LooksAlikeOn(c, Stripped(c, offset + tokens, |c.positions|), d, offset, offset + tokens);
    SameVisibleSameRows(exp, scale, query, heads, c, d, offset, tokens, result);
  }

  lemma {:induction false} LooksAlikeBack(c: Cache, d: Cache, low: nat, high: nat)
    requires LookAlike(c, d, low, high)
    ensures LookAlike(d, c, low, high)
  {
    hide Visible, Entries;
  }

  /** In particular one later token may be removed, or put back, anywhere. */
  lemma {:induction false} LaterTokenDoesNotMatter(exp: real -> real, scale: real, query: seq<seq<real>>, heads: nat,
                                                   c: Cache, i: nat, offset: nat, tokens: nat, result: seq<seq<real>>)
    requires IsExp(exp) && ValidHeads(heads, c) && Widths(query, c.dimension) && |query| == Base(tokens, heads)
    requires i < |c.positions| && c.positions[i] >= offset + tokens
    ensures ValidHeads(heads, Without(c, i))
    ensures IsAttention(exp, scale, query, heads, c, offset, result)
       <==> IsAttention(exp, scale, query, heads, Without(c, i), offset, result)
  {
    hide IsAttention, Without, Base, LookAlike;
    WithoutLooksAlike(c, i, offset, offset + tokens);
    SameVisibleSameRows(exp, scale, query, heads, c, Without(c, i), offset, tokens, result);
  }
}
