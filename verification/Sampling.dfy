/**
Turning logits into a distribution (src/generation/LogitsProcessor.cpp) and a
draw into a token (src/generation/Sampler.cpp). The processor works on a flat
vector through a sorted index list; what it computes is stated by rank.
 */
module Spreading {
  import opened Matrices

  predicate Distinct(order: seq<nat>, size: nat) {
    && (forall r | 0 <= r < |order| :: order[r] < size)
    && (forall r, q | 0 <= r < q < |order| :: order[r] != order[q])
  }

  /** Values written to their places in a vector of zeros. */
  function Spread(size: nat, order: seq<nat>, values: seq<real>): (r: seq<real>)
    requires Distinct(order, size) && |values| <= |order|
    ensures |r| == size
  {
    if values == [] then seq(size, _ => 0.0)
    else
      var n := |values| - 1;
      Spread(size, order, values[..n])[order[n] := values[n]]
  }

  lemma {:induction false} SpreadNothing(size: nat, order: seq<nat>)
    requires Distinct(order, size)
    ensures Spread(size, order, []) == seq(size, _ => 0.0)
  {
  }

  lemma {:induction false} SpreadPush(size: nat, order: seq<nat>, values: seq<real>, x: real)
    requires Distinct(order, size) && |values| < |order|
    ensures Spread(size, order, values + [x]) == Spread(size, order, values)[order[|values|] := x]
  {
    assert (values + [x])[..|values|] == values;
  }

  lemma {:induction false} SpreadAt(size: nat, order: seq<nat>, values: seq<real>)
    requires Distinct(order, size) && |values| <= |order|
    ensures forall r | 0 <= r < |values| :: Spread(size, order, values)[order[r]] == values[r]
    ensures forall i | 0 <= i < size && i !in order[..|values|] :: Spread(size, order, values)[i] == 0.0
  {
    if values != [] {
      var n := |values| - 1;
      SpreadAt(size, order, values[..n]);
      assert order[..n + 1] == order[..n] + [order[n]];
    }
  }

  /** A vector is the spread of some values if it agrees at every place. */
  lemma {:induction false} IsSpread(v: seq<real>, order: seq<nat>, values: seq<real>)
    requires Distinct(order, |v|) && |values| <= |order|
    requires forall r | 0 <= r < |values| :: v[order[r]] == values[r]
    requires forall i | 0 <= i < |v| && i !in order[..|values|] :: v[i] == 0.0
    ensures v == Spread(|v|, order, values)
  {
    hide Spread;
    SpreadAt(|v|, order, values);
    forall i | 0 <= i < |v| ensures v[i] == Spread(|v|, order, values)[i] {
      if i in order[..|values|] {
        var r :| 0 <= r < |values| && order[..|values|][r] == i;
        assert order[r] == i;
      }
    }
  }

  lemma {:induction false} SumUpdate(s: seq<real>, i: nat, x: real)
    requires i < |s|
    ensures Sum(s[i := x]) == Sum(s) - s[i] + x
  {
    var n := |s| - 1;
    if i == n {
      assert s[i := x][..n] == s[..n];
    } else {
      SumUpdate(s[..n], i, x);
      assert s[i := x][..n] == s[..n][i := x];
    }
  }

  lemma {:induction false} SumZeros(size: nat)
    ensures Sum(seq(size, _ => 0.0)) == 0.0
  {
    if size > 0 {
      SumZeros(size - 1);
      assert seq(size, _ => 0.0)[..size - 1] == seq(size - 1, _ => 0.0);
    }
  }

  /** Summing the vector in index order is summing the values in rank order. */
  lemma {:induction false} SpreadSum(size: nat, order: seq<nat>, values: seq<real>)
    requires Distinct(order, size) && |values| <= |order|
    ensures Sum(Spread(size, order, values)) == Sum(values)
  {
    hide Sum;
    if values == [] {
      SumZeros(size);
      SumPush([], 0.0);
      assert Sum(values) == 0.0 by { SumEmpty(); }
    } else {
      var n := |values| - 1;
      SpreadSum(size, order, values[..n]);
      SpreadAt(size, order, values[..n]);
      SumUpdate(Spread(size, order, values[..n]), order[n], values[n]);
      SumPush(values[..n], values[n]);
      assert values == values[..n] + [values[n]];
    }
  }

  lemma {:induction false} SumEmpty()
    ensures Sum([]) == 0.0
  {
  }

  lemma {:induction false} ScaledSpread(size: nat, order: seq<nat>, values: seq<real>, d: real)
    requires Distinct(order, size) && |values| <= |order| && d != 0.0
    ensures Scaled(Spread(size, order, values), d) == Spread(size, order, Scaled(values, d))
  {
    hide Spread;
    SpreadAt(size, order, values);
    IsSpread(Scaled(Spread(size, order, values), d), order, Scaled(values, d));
  }

  /** Prefix sums of positive values grow. */
  lemma {:induction false} PrefixGrows(s: seq<real>, i: nat, j: nat)
    requires i <= j <= |s| && forall k | 0 <= k < |s| :: s[k] >= 0.0
    ensures Sum(s[..i]) <= Sum(s[..j])
    ensures (exists k :: i <= k < j && s[k] > 0.0) ==> Sum(s[..i]) < Sum(s[..j])
  {
    if i < j {
      PrefixGrows(s, i, j - 1);
      SumPush(s[..j - 1], s[j - 1]);
      assert s[..j] == s[..j - 1] + [s[j - 1]];
    }
  }

  /** Rescaling twice is rescaling once. */
  lemma {:induction false} ScaledTwice(w: seq<real>, t: real, k: nat)
    requires k <= |w| && t > 0.0 && Sum(w[..k]) > 0.0
    ensures Sum(Scaled(w, t)[..k]) == Sum(w[..k]) / t > 0.0
    ensures Scaled(Scaled(w, t)[..k], Sum(Scaled(w, t)[..k])) == Scaled(w[..k], Sum(w[..k]))
  {
    hide Sum;
    assert Scaled(w, t)[..k] == Scaled(w[..k], t);
    SumScaled(w[..k], t);
    var s := Sum(w[..k]);
    QuotientPositive(s, t);
    forall i | 0 <= i < k ensures (w[i] / t) / (s / t) == w[i] / s {
      QuotientOfQuotients(w[i], s, t);
    }
  }

  lemma {:induction false} QuotientPositive(s: real, t: real)
    requires s > 0.0 && t > 0.0
    ensures s / t > 0.0
  {
    assert s / t * t == s;
  }

  lemma {:induction false} QuotientOfQuotients(x: real, s: real, t: real)
    requires s > 0.0 && t > 0.0 && s / t > 0.0
    ensures (x / t) / (s / t) == x / s
  {
    var a, b, c := x / t, s / t, x / s;
    assert a * t == x && b * t == s && c * s == x;
    assert c * b * t == c * s == a * t;
    Cancel(c * b, a, t);
    assert c * b / b == c;
  }

  lemma {:induction false} Cancel(x: real, y: real, t: real)
    requires t > 0.0 && x * t == y * t
    ensures x == y
  {
    assert x == x * t / t && y == y * t / t;
  }

  lemma {:induction false} QuotientAtLeast(x: real, t: real, bound: real)
    requires t > 0.0
    ensures x / t >= bound <==> x >= bound * t
  {
    var q := x / t;
    assert q * t == x;
    if q >= bound {
      assert q * t >= bound * t;
    } else {
      assert q * t < bound * t;
    }
  }
}

/** The distribution over the vocabulary. */
module LogitsProcessor {
  import opened Wrappers
  import opened Matrices
  import opened Routing
  import opened Spreading

  datatype Strategy = Greedy | Stochastic

  datatype SamplingError = InvalidSamplingConfig | VocabularyTooLarge

  datatype SamplingConfig = SamplingConfig(strategy: Strategy, temperature: real, topK: nat, topP: real) {
    predicate Valid(vocabulary: nat) {
      && vocabulary > 0 && temperature > 0.0
      && (topK == 0 || topK <= vocabulary)
      && 0.0 < topP <= 1.0
    }

    function Retained(vocabulary: nat): nat {
      if topK == 0 then vocabulary else topK
    }

    function Scale(): (r: real)
      ensures temperature > 0.0 ==> r > 0.0
    {
      if strategy == Stochastic then temperature else 1.0
    }
  }

  lemma {:induction false} OrderDistinct(logits: seq<real>, order: seq<nat>)
    requires IsTopK(logits, |logits|, order)
    ensures Distinct(order, |logits|)
    ensures forall i: nat | i < |logits| :: i in order
  {
    assert forall r, q | 0 <= r < q < |order| :: Ranks(logits, order[r], order[q]);
    AllPlaced(order, |logits|);
  }

  lemma {:induction false} AllPlaced(order: seq<nat>, size: nat)
    requires Distinct(order, size) && |order| == size
    ensures forall i: nat | i < size :: i in order
  {
    var all, placed := AllIds(size), Held(order);
    HeldCount(order, size);
    if exists i: nat :: i < size && i !in order {
      var i: nat :| i < size && i !in order;
      FewerHeld(placed, all, i);
    }
  }

  function Held(order: seq<nat>): set<nat> {
    set i | i in order
  }

  lemma {:induction false} FewerHeld(placed: set<nat>, all: set<nat>, i: nat)
    requires placed <= all && i in all && i !in placed
    ensures |placed| < |all|
  {
    SubsetSize(placed, all - {i});
  }

  lemma {:induction false} SubsetSize(a: set<nat>, b: set<nat>)
    requires a <= b
    ensures |a| <= |b|
  {
    if a != {} {
      var x :| x in a;
      SubsetSize(a - {x}, b - {x});
    }
  }

  lemma {:induction false} HeldCount(order: seq<nat>, size: nat)
    requires Distinct(order, size)
    ensures |Held(order)| == |order|
  {
    if order != [] {
      var n := |order| - 1;
      HeldCount(order[..n], size);
      assert Held(order) == Held(order[..n]) + {order[n]};
    }
  }

  /** Best logit first, ties by index: the stable descending order. */
  ghost function Order(logits: seq<real>): (order: seq<nat>)
    ensures |order| == |logits| && IsTopK(logits, |logits|, order) && Distinct(order, |logits|)
  {
    OrderDistinct(logits, TopK(logits, |logits|));
    TopK(logits, |logits|)
  }

  /** The weights of the retained tokens, by rank: exponentials of the scaled
      logits, shifted so that the best is exp(0). */
  function Weights(exp: real -> real, logits: seq<real>, order: seq<nat>, retained: nat, scale: real): (w: seq<real>)
    requires 0 < retained <= |order| && scale > 0.0
    requires forall r | 0 <= r < |order| :: order[r] < |logits|
    ensures |w| == retained
  {
    seq(retained, r requires 0 <= r < retained => exp(logits[order[r]] / scale - logits[order[0]] / scale))
  }

  lemma {:induction false} WeightsPositive(exp: real -> real, logits: seq<real>, order: seq<nat>, retained: nat,
                                        scale: real)
    requires IsExp(exp) && 0 < retained <= |order| && scale > 0.0
    requires forall r | 0 <= r < |order| :: order[r] < |logits|
    ensures AllPositive(Weights(exp, logits, order, retained, scale))
  {
  }

  lemma {:induction false} WeightAt(exp: real -> real, logits: seq<real>, order: seq<nat>, retained: nat, scale: real,
                                    r: nat)
    requires scale > 0.0 && r < retained <= |order| && forall q | 0 <= q < |order| :: order[q] < |logits|
    ensures Weights(exp, logits, order, retained, scale)[r] == exp(logits[order[r]] / scale - logits[order[0]] / scale)
  {
  }

  predicate AllPositive(w: seq<real>) {
    forall r | 0 <= r < |w| :: w[r] > 0.0
  }

  /** The first prefix, from k ranks on, whose weight reaches a goal. */
  function KeptFrom(w: seq<real>, goal: real, k: nat): (keep: nat)
    requires k <= |w|
    ensures k <= keep <= |w|
    decreases |w| - k
  {
    if k == |w| || Sum(w[..k]) >= goal then k else KeptFrom(w, goal, k + 1)
  }

  /** The share topP of all weight. */
  function Goal(w: seq<real>, topP: real): real {
    topP * Sum(w)
  }

  /** How many ranks are kept: enough to hold the share topP of all weight. */
  function Kept(w: seq<real>, topP: real): (keep: nat)
    requires w != []
    ensures 1 <= keep <= |w|
  {
    if topP < 1.0 then KeptFrom(w, Goal(w, topP), 1) else |w|
  }

  lemma {:induction false} KeptFromIsFirst(w: seq<real>, goal: real, k: nat)
    requires k <= |w| && goal <= Sum(w)
    ensures Sum(w[..KeptFrom(w, goal, k)]) >= goal
    ensures forall j | k <= j < KeptFrom(w, goal, k) :: Sum(w[..j]) < goal
    decreases |w| - k
  {
    hide Sum;
    if k == |w| {
      assert w[..k] == w;
    } else if Sum(w[..k]) < goal {
      KeptFromIsFirst(w, goal, k + 1);
    }
  }

  lemma {:induction false} PartOfAll(p: real, t: real)
    requires 0.0 < p <= 1.0 && t > 0.0
    ensures 0.0 < p * t <= t
    ensures p == 1.0 ==> p * t == t
  {
  }

  /** The kept ranks are the shortest nonempty prefix that holds the share topP. */
  lemma {:induction false} KeptIsShortest(w: seq<real>, topP: real)
    requires w != [] && AllPositive(w) && 0.0 < topP <= 1.0
    ensures Sum(w[..Kept(w, topP)]) >= Goal(w, topP)
    ensures forall j | 0 <= j < Kept(w, topP) :: Sum(w[..j]) < Goal(w, topP)
  {
    hide Sum;
    TotalPositive(w);
    PartOfAll(topP, Sum(w));
    KeptFromIsFirst(w, Goal(w, topP), 1);
    SumEmpty();
    assert w[..0] == [] && w[..|w|] == w;
    if topP == 1.0 {
      forall j | 0 <= j < |w| ensures Sum(w[..j]) < Goal(w, topP) {
        PrefixGrows(w, j, |w|);
        assert w[j] > 0.0;
      }
    }
  }

  lemma {:induction false} TotalPositive(w: seq<real>)
    requires w != [] && AllPositive(w)
    ensures Sum(w) > 0.0
  {
    SumPositive(w);
    assert w[0] > 0.0;
  }

  /** The distribution owed: the kept weights over their total, at their
      places; zero elsewhere. */
  ghost function Distribution(exp: real -> real, logits: seq<real>, config: SamplingConfig): (p: seq<real>)
    requires IsExp(exp) && config.Valid(|logits|)
    ensures |p| == |logits|
  {
    var order := Order(logits);
    OrderDistinct(logits, order);
    var w := Weights(exp, logits, order, config.Retained(|logits|), config.Scale());
    WeightsPositive(exp, logits, order, config.Retained(|logits|), config.Scale());
    var keep := Kept(w, config.topP);
    TotalPositive(w[..keep]);
    Spread(|logits|, order, Scaled(w[..keep], Sum(w[..keep])))
  }

  /** A distribution over the vocabulary with exactly these ranks in it. */
  ghost predicate Supports(p: seq<real>, order: seq<nat>, keep: nat)
    requires |order| == |p| && keep <= |order|
  {
    && Sum(p) == 1.0
    && (forall i | 0 <= i < |p| :: p[i] >= 0.0)
    && (forall i | 0 <= i < |p| :: p[i] > 0.0 <==> i in order[..keep])
  }

  /** The kept probabilities are in the ratios of their weights. */
  ghost predicate InRatio(p: seq<real>, order: seq<nat>, w: seq<real>)
    requires |w| <= |order| == |p| && Distinct(order, |p|)
  {
    forall r, q | 0 <= r < |w| && 0 <= q < |w| :: p[order[r]] * w[q] == p[order[q]] * w[r]
  }

  lemma {:induction false} SharesInRatio(p: seq<real>, order: seq<nat>, w: seq<real>, total: real)
    requires |w| <= |order| == |p| && Distinct(order, |p|) && total > 0.0
    requires forall r | 0 <= r < |w| :: p[order[r]] == Scaled(w, total)[r]
    ensures InRatio(p, order, w)
  {
    forall r, q | 0 <= r < |w| && 0 <= q < |w| ensures p[order[r]] * w[q] == p[order[q]] * w[r] {
      assert p[order[r]] == w[r] / total && p[order[q]] == w[q] / total;
      CrossMultiply(w[r], w[q], total);
    }
  }

  lemma {:induction false} SpreadSupports(size: nat, order: seq<nat>, w: seq<real>)
    requires Distinct(order, size) && |order| == size && w != [] && |w| <= size && AllPositive(w)
    ensures Sum(w) > 0.0
    ensures Supports(Spread(size, order, Scaled(w, Sum(w))), order, |w|)
    ensures InRatio(Spread(size, order, Scaled(w, Sum(w))), order, w)
  {
    hide Sum, Spread, InRatio;
    TotalPositive(w);
    var s := Scaled(w, Sum(w));
    SpreadAt(size, order, s);
    SpreadSum(size, order, s);
    SumScaled(w, Sum(w));
    DivideBySelf(Sum(w));
    var p := Spread(size, order, s);
    forall i | 0 <= i < size ensures p[i] >= 0.0 && (p[i] > 0.0 <==> i in order[..|w|]) {
      if i in order[..|w|] {
        var r :| 0 <= r < |w| && order[..|w|][r] == i;
        assert order[r] == i && w[r] > 0.0;
        QuotientPositive(w[r], Sum(w));
      }
    }
    SharesInRatio(p, order, w, Sum(w));
  }

  /** What the distribution means: it sums to one; its support is the shortest
      prefix of the best-first order, within the top k, that holds the share
      topP of the top k's weight; and inside the support every two
      probabilities are in the ratio of the exponentials of their scaled
      logits. */
  lemma {:induction false} DistributionMeans(exp: real -> real, logits: seq<real>, config: SamplingConfig)
    returns (keep: nat)
    requires IsExp(exp) && config.Valid(|logits|)
    ensures 1 <= keep <= config.Retained(|logits|) <= |logits|
    ensures Supports(Distribution(exp, logits, config), Order(logits), keep)
    ensures
      var w := Weights(exp, logits, Order(logits), config.Retained(|logits|), config.Scale());
      && Sum(w[..keep]) >= Goal(w, config.topP)
      && (forall j | 0 <= j < keep :: Sum(w[..j]) < Goal(w, config.topP))
      && InRatio(Distribution(exp, logits, config), Order(logits), w[..keep])
  {
    hide Sum, Spread, Kept, IsTopK, Weights, Goal, InRatio, Supports, Scaled;
    var order := Order(logits);
    OrderDistinct(logits, order);
    var w := Weights(exp, logits, order, config.Retained(|logits|), config.Scale());
    WeightsPositive(exp, logits, order, config.Retained(|logits|), config.Scale());
    keep := Kept(w, config.topP);
    KeptIsShortest(w, config.topP);
    SpreadSupports(|logits|, order, w[..keep]);
  }

  lemma {:induction false} CrossMultiply(x: real, y: real, t: real)
    requires t > 0.0
    ensures x / t * y == y / t * x
  {
    var a, b := x / t, y / t;
    assert a * t == x && b * t == y;
    assert a * y == a * (b * t) && b * x == b * (a * t);
  }

  /** Sum, support and ratios leave only one distribution. */
  lemma {:induction false} DistributionUnique(p: seq<real>, other: seq<real>, order: seq<nat>, w: seq<real>)
    requires |p| == |other| == |order| && 1 <= |w| <= |order| && Distinct(order, |p|) && AllPositive(w)
    requires Supports(p, order, |w|) && Supports(other, order, |w|)
    requires InRatio(p, order, w) && InRatio(other, order, w)
    ensures p == other
  {
    hide Sum, InRatio;
    RatiosFix(p, order, w);
    RatiosFix(other, order, w);
  }

  /** In ratio and summing to one: the weights over their total. */
  lemma {:induction false} RatiosFix(p: seq<real>, order: seq<nat>, w: seq<real>)
    requires |p| == |order| && 1 <= |w| <= |order| && Distinct(order, |p|) && AllPositive(w)
    requires Supports(p, order, |w|) && InRatio(p, order, w)
    ensures Sum(w) > 0.0
    ensures p == Spread(|p|, order, Scaled(w, Sum(w)))
  {
    hide Sum, Spread;
    TotalPositive(w);
    var n := |w|;
    var v := seq(n, r requires 0 <= r < n => p[order[r]]);
    IsSpread(p, order, v);
    SpreadSum(|p|, order, v);
    RatiosKept(p, order, w, v);
    hide InRatio, Supports, AllPositive, Distinct, Cross;
    forall r | 0 <= r < n ensures v[r] == w[r] / Sum(w) {
      RatioAt(v, w, r);
    }
    assert v == Scaled(w, Sum(w));
  }

  /** Two shares in the ratio of two weights. */
  predicate Cross(v: seq<real>, w: seq<real>, r: nat, q: nat)
    requires r < |v| <= |w| && q < |v|
  {
    v[r] * w[q] == v[q] * w[r]
  }

  lemma {:induction false} RatiosKept(p: seq<real>, order: seq<nat>, w: seq<real>, v: seq<real>)
    requires |p| == |order| && |v| == |w| <= |order| && Distinct(order, |p|) && InRatio(p, order, w)
    requires forall r | 0 <= r < |w| :: v[r] == p[order[r]]
    ensures forall r, q | 0 <= r < |w| && 0 <= q < |w| :: Cross(v, w, r, q)
  {
  }

  lemma {:induction false} RatioAt(v: seq<real>, w: seq<real>, r: nat)
    requires r < |v| == |w| && Sum(v) == 1.0 && Sum(w) > 0.0
    requires forall q | 0 <= q < |v| :: Cross(v, w, r, q)
    ensures v[r] == w[r] / Sum(w)
  {
    hide Sum;
    SumInRatio(v, w, r);
    DivideBack(v[r], Sum(w), w[r]);
  }

  lemma {:induction false} DivideBack(x: real, t: real, y: real)
    requires t > 0.0 && x * t == y
    ensures x == y / t
  {
  }

  lemma {:induction false} SumInRatio(v: seq<real>, w: seq<real>, r: nat)
    requires r < |v| <= |w|
    requires forall q | 0 <= q < |v| :: Cross(v, w, r, q)
    ensures v[r] * Sum(w[..|v|]) == Sum(v) * w[r]
    ensures |v| == |w| ==> v[r] * Sum(w) == Sum(v) * w[r]
  {
    assert forall q | 0 <= q < |v| :: Cross(v, w, r, q) ==> v[r] * w[q] == v[q] * w[r];
    SumProportional(v, w, v[r], w[r]);
    assert |v| == |w| ==> w[..|v|] == w;
  }

  lemma {:induction false} SumProportional(v: seq<real>, w: seq<real>, a: real, b: real)
    requires |v| <= |w|
    requires forall q | 0 <= q < |v| :: a * w[q] == v[q] * b
    ensures a * Sum(w[..|v|]) == Sum(v) * b
  {
    if v != [] {
      var n := |v| - 1;
      SumProportional(v[..n], w, a, b);
      SumPush(w[..n], w[n]);
      assert w[..n + 1] == w[..n] + [w[n]];
    }
  }

  // ---- the loops ----

  /** Weights written to their places, with their total. */
  method WeighRetained(exp: real -> real, logits: seq<real>, order: seq<nat>, retained: nat, scale: real)
    returns (result: seq<real>, total: real)
    requires scale > 0.0 && 0 < retained <= |order| == |logits| && Distinct(order, |logits|)
    ensures result == Spread(|logits|, order, Weights(exp, logits, order, retained, scale))
    ensures total == Sum(Weights(exp, logits, order, retained, scale))
  {
    hide Sum, Spread, Weights;
    SumEmpty();
    var maximum := logits[order[0]] / scale;
    ghost var w := Weights(exp, logits, order, retained, scale);
    assert w[..0] == [] && Spread(|logits|, order, w[..0]) == seq(|logits|, _ => 0.0) by {
      SpreadNothing(|logits|, order);
    }
    result, total := seq(|logits|, _ => 0.0), 0.0;
    for rank := 0 to retained
      invariant result == Spread(|logits|, order, w[..rank])
      invariant total == Sum(w[..rank])
    {
      var index := order[rank];
      result := result[index := exp(logits[index] / scale - maximum)];
      WeightAt(exp, logits, order, retained, scale, rank);
      SumPush(w[..rank], w[rank]);
      SpreadPush(|logits|, order, w[..rank], w[rank]);
      assert w[..rank + 1] == w[..rank] + [w[rank]];
      total := total + result[index];
    }
    assert w[..retained] == w;
  }

  method DivideAll(s: seq<real>, d: real) returns (r: seq<real>)
    requires d != 0.0
    ensures r == Scaled(s, d)
  {
    r := s;
    for i := 0 to |s|
      invariant |r| == |s|
      invariant forall j | 0 <= j < |s| :: r[j] == if j < i then s[j] / d else s[j]
    {
      r := r[i := r[i] / d];
    }
  }

  /** The walk that finds how many ranks to keep. */
  method CountKept(result: seq<real>, order: seq<nat>, ghost w: seq<real>, retained: nat, topP: real)
    returns (keep: nat)
    requires w != [] && |w| == retained <= |order| && Distinct(order, |result|) && AllPositive(w)
    requires Sum(w) > 0.0 && result == Spread(|result|, order, Scaled(w, Sum(w)))
    requires 0.0 < topP < 1.0
    ensures keep == Kept(w, topP)
  {
    hide Sum, Spread, KeptFrom, Goal;
    ghost var share := Goal(w, topP);
    SpreadAt(|result|, order, Scaled(w, Sum(w)));
    ghost var s := Scaled(w, Sum(w));
    ghost var goal := KeptFrom(w, share, 1);
    var cumulative := 0.0;
    keep := 0;
    SumEmpty();
    assert s[..0] == [];
    while keep < retained
      invariant keep < goal || (keep == goal == retained)
      invariant cumulative == Sum(s[..keep])
      invariant keep >= 1 ==> KeptFrom(w, share, keep + if keep < retained then 1 else 0) == goal
      decreases retained - keep
    {
      cumulative := cumulative + result[order[keep]];
      SumPush(s[..keep], s[keep]);
      assert s[..keep + 1] == s[..keep] + [s[keep]];
      Reached(w, topP, keep + 1);
      KeptStep(w, share, keep + 1);
      if cumulative >= topP {
        keep := keep + 1;
        break;
      }
      keep := keep + 1;
    }
    keep := AtLeastOne(keep);
  }

  function AtLeastOne(n: nat): nat {
    if n < 1 then 1 else n
  }

  lemma {:induction false} KeptStep(w: seq<real>, goal: real, k: nat)
    requires k <= |w|
    ensures KeptFrom(w, goal, k) == if k == |w| || Sum(w[..k]) >= goal then k else KeptFrom(w, goal, k + 1)
  {
  }

  /** One step of the walk, in shares and in weights. */
  lemma {:induction false} Reached(w: seq<real>, topP: real, k: nat)
    requires k <= |w| && Sum(w) > 0.0
    ensures Sum(Scaled(w, Sum(w))[..k]) >= topP <==> Sum(w[..k]) >= Goal(w, topP)
  {
    hide Sum;
    assert Scaled(w, Sum(w))[..k] == Scaled(w[..k], Sum(w));
    SumScaled(w[..k], Sum(w));
    QuotientAtLeast(Sum(w[..k]), Sum(w), topP);
  }

  /** Zeroes the ranks from keep on. */
  method DropRest(result: seq<real>, order: seq<nat>, ghost values: seq<real>, keep: nat, retained: nat)
    returns (r: seq<real>)
    requires keep <= retained == |values| <= |order| && Distinct(order, |result|)
    requires result == Spread(|result|, order, values)
    ensures |r| == |result| && r == Spread(|result|, order, values[..keep])
  {
    hide Spread;
    SpreadAt(|result|, order, values);
    r := result;
    for rank := keep to retained
      invariant |r| == |result|
      invariant forall q | 0 <= q < keep :: r[order[q]] == values[q]
      invariant forall q | rank <= q < retained :: r[order[q]] == values[q]
      invariant forall i | 0 <= i < |r| && i !in order[..keep] && i !in order[rank..retained] :: r[i] == 0.0
    {
      r := r[order[rank] := 0.0];
      assert order[rank..retained] == [order[rank]] + order[rank + 1..retained];
    }
    assert order[retained..retained] == [];
    IsSpread(r, order, values[..keep]);
  }

  /** The processor: the distribution owed, or the configuration's refusal. Its
      own check that the total is positive never fails. */
  method Probabilities(exp: real -> real, logits: seq<real>, config: SamplingConfig)
    returns (r: Result<seq<real>, SamplingError>)
    requires IsExp(exp)
    ensures !config.Valid(|logits|) ==> r == Err(InvalidSamplingConfig)
    ensures config.Valid(|logits|) ==> r == Ok(Distribution(exp, logits, config))
  {
    if !config.Valid(|logits|) {
      return Err(InvalidSamplingConfig);
    }
    hide Sum, Spread, Kept, IsTopK, Weights, Scaled;
    var order := SortPrefix(logits, |logits|);
    TopKUnique(logits, |logits|, order, Order(logits));
    OrderDistinct(logits, order);
    var retained, scale := config.Retained(|logits|), config.Scale();
    ghost var w := Weights(exp, logits, order, retained, scale);
    WeightsPositive(exp, logits, order, retained, scale);
    TotalPositive(w);
    var result, total := WeighRetained(exp, logits, order, retained, scale);
    ScaledSpread(|logits|, order, w, total);
    result := DivideAll(result, total);
    if config.topP < 1.0 {
      var keep := CountKept(result, order, w, retained, config.topP);
      result := DropRest(result, order, Scaled(w, total), keep, retained);
      TotalPositive(w[..keep]);
      ScaledTwice(w, total, keep);
      SpreadSum(|logits|, order, Scaled(w, total)[..keep]);
      var keptTotal := SumOf(result);
      ScaledSpread(|logits|, order, Scaled(w, total)[..keep], keptTotal);
      result := DivideAll(result, keptTotal);
    } else {
      KeepAll(w, config.topP);
    }
    r := Ok(result);
  }

  lemma {:induction false} KeepAll(w: seq<real>, topP: real)
    requires w != [] && topP >= 1.0
    ensures w[..Kept(w, topP)] == w
  {
  }
}

/** From a distribution and a draw to a token. */
module Sampler {
  import opened Wrappers
  import opened Matrices
  import opened Routing
  import opened Spreading
  import opened LogitsProcessor

  const TOKEN_LIMIT: nat := 0xFFFF_FFFF

  /** The draw falls into the token's stretch of the cumulative sums. */
  ghost predicate Hits(p: seq<real>, draw: real, token: nat) {
    token < |p| && Sum(p[..token]) <= draw < Sum(p[..token + 1])
  }

  /** A draw hits one token only, one of positive probability; and the draws
      that hit a token form an interval whose length is its probability. */
  lemma {:induction false} HitsOne(p: seq<real>, draw: real, token: nat, other: nat)
    requires forall i | 0 <= i < |p| :: p[i] >= 0.0
    requires Hits(p, draw, token)
    ensures p[token] > 0.0
    ensures Sum(p[..token + 1]) - Sum(p[..token]) == p[token]
    ensures Hits(p, draw, other) ==> other == token
  {
    hide Sum;
    SumPush(p[..token], p[token]);
    assert p[..token + 1] == p[..token] + [p[token]];
    if Hits(p, draw, other) {
      if other < token {
        PrefixGrows(p, other + 1, token);
      } else if token < other {
        PrefixGrows(p, token + 1, other);
      }
    }
  }

  /** The inverse of the cumulative distribution, with the fallback the source
      keeps for sums that fall short of the draw: the last token of positive
      probability. */
  method Walk(p: seq<real>, draw: real) returns (token: nat)
    requires p != [] && draw >= 0.0 && forall i | 0 <= i < |p| :: p[i] >= 0.0
    ensures token < |p|
    ensures draw < Sum(p) ==> Hits(p, draw, token)
    ensures draw >= Sum(p) ==> forall i | token < i < |p| :: p[i] == 0.0
    ensures Sum(p) > 0.0 ==> p[token] > 0.0
  {
    hide Sum;
    SumEmpty();
    assert p[..0] == [];
    var cumulative, last := 0.0, 0;
    for index := 0 to |p|
      invariant cumulative == Sum(p[..index]) <= draw
      invariant last < |p| && (last < index || last == 0)
      invariant forall i | last < i < index :: p[i] == 0.0
      invariant p[last] > 0.0 || forall i | 0 <= i < index :: p[i] == 0.0
    {
      if p[index] > 0.0 { last := index; }
      SumPush(p[..index], p[index]);
      assert p[..index + 1] == p[..index] + [p[index]];
      cumulative := cumulative + p[index];
      if draw < cumulative {
        PrefixGrows(p, index + 1, |p|);
        assert p[..|p|] == p;
        return index;
      }
    }
    assert p[..|p|] == p;
    if p[last] == 0.0 {
      NothingSums(p);
    }
    return last;
  }

  lemma {:induction false} NothingSums(p: seq<real>)
    requires forall i | 0 <= i < |p| :: p[i] == 0.0
    ensures Sum(p) == 0.0
  {
    if p != [] {
      NothingSums(p[..|p| - 1]);
    }
  }

  /** The library's maximum search: the first of the largest. */
  method FirstMaximum(logits: seq<real>) returns (token: nat)
    requires logits != []
    ensures token < |logits| && forall i | 0 <= i < |logits| && i != token :: Ranks(logits, token, i)
  {
    token := 0;
    for i := 1 to |logits|
      invariant token < i
      invariant forall j | 0 <= j < i :: logits[j] <= logits[token]
      invariant forall j | 0 <= j < token :: logits[j] < logits[token]
    {
      if logits[token] < logits[i] { token := i; }
    }
  }

  /** The greedy token is the first of the best-first order. */
  lemma {:induction false} GreedyIsTopOne(logits: seq<real>, token: nat)
    requires token < |logits| && forall i | 0 <= i < |logits| && i != token :: Ranks(logits, token, i)
    ensures [token] == Order(logits)[..1]
  {
    TopKPrefix(logits, 1, Order(logits), |logits|);
    assert IsTopK(logits, 1, [token]);
    TopKUnique(logits, 1, [token], Order(logits)[..1]);
  }

  /** The token owed for a draw. */
  ghost predicate IsSample(exp: real -> real, logits: seq<real>, config: SamplingConfig, draw: real, token: nat)
    requires IsExp(exp) && config.Valid(|logits|)
  {
    match config.strategy
    case Greedy => [token] == Order(logits)[..1]
    case Stochastic => Hits(Distribution(exp, logits, config), draw, token)
  }

  /** Whatever the draw, the token is among the kept ranks, and greedy decoding
      is the sampling that keeps one rank. */
  lemma {:induction false} SampleIsKept(exp: real -> real, logits: seq<real>, config: SamplingConfig, draw: real,
                                        token: nat)
    requires IsExp(exp) && config.Valid(|logits|) && IsSample(exp, logits, config, draw, token)
    ensures token in Order(logits)[..config.Retained(|logits|)]
    ensures config.topK == 1 ==> [token] == Order(logits)[..1]
  {
    hide Distribution, Sum, Weights, IsTopK, Distinct;
    var keep := DistributionMeans(exp, logits, config);
    var p, order := Distribution(exp, logits, config), Order(logits);
    if config.strategy == Greedy {
      assert order[..1][0] == token;
      InPrefix(order, 0, config.Retained(|logits|));
    } else {
      HitsOne(p, draw, token, token);
      assert token in order[..keep];
      var r :| 0 <= r < keep && order[..keep][r] == token;
      InPrefix(order, r, config.Retained(|logits|));
      if config.topK == 1 {
        assert order[..1] == [order[0]];
      }
    }
  }

  lemma {:induction false} InPrefix(order: seq<nat>, r: nat, k: nat)
    requires r < k <= |order|
    ensures order[r] in order[..k]
  {
    assert order[..k][r] == order[r];
  }

  /** A generator's 64 bits as a draw: the top 53 over 2 to the power of 53. */
  function Draw(bits: nat): (draw: real)
    requires bits < 0x1_0000_0000_0000_0000
    ensures 0.0 <= draw < 1.0
  {
    (bits / 2048) as real / 9007199254740992.0
  }

  /** A sampler with the stream its generator will yield. */
  class TokenSampler {
    const config: SamplingConfig
    const stream: nat -> nat
    /** How much of the stream is used up. */
    var used: nat

    ghost predicate Valid() {
      forall k :: stream(k) < 0x1_0000_0000_0000_0000
    }

    constructor (config: SamplingConfig, stream: nat -> nat)
      requires forall k :: stream(k) < 0x1_0000_0000_0000_0000
      ensures Valid() && used == 0 && this.config == config && this.stream == stream
    {
      this.config, this.stream, used := config, stream, 0;
    }

    /** Samples a token; only a stochastic sample uses up a draw, and a refusal
        uses none. */
    method Sample(exp: real -> real, logits: seq<real>) returns (r: Result<nat, SamplingError>)
      requires Valid() && IsExp(exp)
      modifies this
      ensures r.Err? <==> !config.Valid(|logits|) || |logits| > TOKEN_LIMIT
      ensures used == old(used) + if r.Ok? && config.strategy == Stochastic then 1 else 0
      ensures r.Ok? ==> IsSample(exp, logits, config, Draw(stream(old(used))), r.value)
    {
      if !config.Valid(|logits|) {
        return Err(InvalidSamplingConfig);
      }
      if |logits| > TOKEN_LIMIT {
        return Err(VocabularyTooLarge);
      }
      if config.strategy == Greedy {
        var token := FirstMaximum(logits);
        GreedyIsTopOne(logits, token);
        return Ok(token);
      }
      var probabilities := Probabilities(exp, logits, config);
      var p := probabilities.value;
      ghost var keep := DistributionMeans(exp, logits, config);
      var draw := Draw(stream(used));
      used := used + 1;
      var token := Walk(p, draw);
      r := Ok(token);
    }
  }
}
