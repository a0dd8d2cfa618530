/**
Routing one token (src/router/CpuRouterBackend.cpp) and the oracle's version
of it (src/validation/CorrectnessOracle.cpp): scores, softmax, top-k and
renormalisation.
 */
module Routing {
  import opened Wrappers
  import opened Matrices

  type ExpertId = nat

  datatype RouterConfig = RouterConfig(expertCount: nat, topK: nat, softmax: bool, renormalize: bool) {
    /** The configuration check: at least one expert, identifiers of 32 bits, 1 <= k <= experts. */
    predicate Valid() {
      0 < expertCount < 0x1_0000_0000 && 0 < topK <= expertCount
    }
  }

  datatype Decision = Decision(ids: seq<ExpertId>, scores: seq<real>)

  datatype RouterError = InvalidConfig | InvalidDimensions | CannotRenormalize | InvalidExpert | SelectionOverflow

  // ---- scores ----

  ghost predicate IsMaximum(s: seq<real>, m: real) {
    m in s && forall i | 0 <= i < |s| :: s[i] <= m
  }

  function Maximum(s: seq<real>): (m: real)
    requires s != []
    ensures IsMaximum(s, m)
  {
    if |s| == 1 then s[0]
    else
      var m := Maximum(s[..|s| - 1]);
      if s[|s| - 1] > m then s[|s| - 1] else m
  }

  lemma {:induction false} MaximumUnique(s: seq<real>, m: real)
    requires s != [] && IsMaximum(s, m)
    ensures m == Maximum(s)
  {
  }

  function Exponentials(exp: real -> real, s: seq<real>, m: real): (r: seq<real>)
    ensures |r| == |s|
  {
    seq(|s|, i requires 0 <= i < |s| => exp(s[i] - m))
  }

  lemma {:induction false} ExponentialsPositive(exp: real -> real, s: seq<real>, m: real)
    requires IsExp(exp) && s != []
    ensures Sum(Exponentials(exp, s, m)) > 0.0
  {
    SumPositive(Exponentials(exp, s, m));
  }

  function Softmax(exp: real -> real, s: seq<real>): (r: seq<real>)
    requires s != [] && Sum(Exponentials(exp, s, Maximum(s))) != 0.0
    ensures |r| == |s|
  {
    Scaled(Exponentials(exp, s, Maximum(s)), Sum(Exponentials(exp, s, Maximum(s))))
  }

  /** Softmax is a probability distribution that keeps the order and the ties. */
  lemma {:induction false} SoftmaxKeepsOrder(exp: real -> real, s: seq<real>)
    requires IsExp(exp) && s != []
    ensures Sum(Exponentials(exp, s, Maximum(s))) > 0.0
    ensures Sum(Softmax(exp, s)) == 1.0
    ensures forall i | 0 <= i < |s| :: 0.0 < Softmax(exp, s)[i] <= 1.0
    ensures SameOrder(Softmax(exp, s), s)
  {
    hide Scaled, Sum, Maximum;
    var e := Exponentials(exp, s, Maximum(s));
    ExponentialsPositive(exp, s, Maximum(s));
    ExponentialsOrder(exp, s, Maximum(s));
    SumPositive(e);
    SumScaled(e, Sum(e));
    ScaledOrder(e, Sum(e));
    QuotientOrder(0.0, 0.0, Sum(e));
  }

  lemma {:induction false} ExponentialsOrder(exp: real -> real, s: seq<real>, m: real)
    requires IsExp(exp)
    ensures SameOrder(Exponentials(exp, s, m), s)
    ensures forall i | 0 <= i < |s| :: Exponentials(exp, s, m)[i] > 0.0
  {
    assert forall i, j | 0 <= i < |s| && 0 <= j < |s| :: s[i] < s[j] <==> s[i] - m < s[j] - m;
  }

  /** Two lists order their positions alike. */
  ghost predicate SameOrder(s: seq<real>, t: seq<real>) {
    |s| == |t| && forall i, j | 0 <= i < |s| && 0 <= j < |s| :: s[i] < s[j] <==> t[i] < t[j]
  }

  lemma {:induction false} ScaledOrder(s: seq<real>, d: real)
    requires d > 0.0
    ensures SameOrder(Scaled(s, d), s)
    ensures forall i | 0 <= i < |s| && s[i] > 0.0 :: Scaled(s, d)[i] > 0.0
    ensures forall i | 0 <= i < |s| && s[i] <= d :: Scaled(s, d)[i] <= 1.0
  {
    forall i, j | 0 <= i < |s| && 0 <= j < |s|
      ensures Scaled(s, d)[i] < Scaled(s, d)[j] <==> s[i] < s[j]
    {
      QuotientOrder(s[i], s[j], d);
    }
    forall i | 0 <= i < |s|
      ensures s[i] > 0.0 ==> Scaled(s, d)[i] > 0.0
      ensures s[i] <= d ==> Scaled(s, d)[i] <= 1.0
    {
      QuotientOrder(0.0, s[i], d);
      QuotientOrder(d, s[i], d);
    }
  }

  lemma {:induction false} DivideBySelf(d: real)
    requires d != 0.0
    ensures d / d == 1.0
  {
  }

  lemma {:induction false} QuotientOrder(x: real, y: real, d: real)
    requires d > 0.0
    ensures x / d < y / d <==> x < y
    ensures d / d == 1.0 && 0.0 / d == 0.0
  {
    assert x / d * d == x && y / d * d == y;
    if x / d < y / d {
      assert x / d * d < y / d * d;
    }
    if x / d >= y / d {
      assert x / d * d >= y / d * d;
    }
  }

  // ---- the top k ----

  /** Higher score first, then the smaller identifier. */
  predicate Ranks(scores: seq<real>, a: ExpertId, b: ExpertId)
    requires a < |scores| && b < |scores|
  {
    scores[a] > scores[b] || (scores[a] == scores[b] && a < b)
  }

  /** The k best identifiers, best first. */
  ghost predicate IsTopK(scores: seq<real>, k: nat, ids: seq<ExpertId>) {
    && |ids| == k
    && (forall i | 0 <= i < k :: ids[i] < |scores|)
    && (forall i, j | 0 <= i < j < k :: Ranks(scores, ids[i], ids[j]))
    && (forall i, e: nat | 0 <= i < k && e < |scores| && e !in ids :: Ranks(scores, ids[i], e))
  }

  lemma {:induction false} TopKPrefix(scores: seq<real>, k: nat, ids: seq<ExpertId>, n: nat)
    requires IsTopK(scores, n, ids) && k <= n
    ensures IsTopK(scores, k, ids[..k])
  {
    forall i, e: nat | 0 <= i < k && e < |scores| && e !in ids[..k]
      ensures Ranks(scores, ids[i], e)
    {
      if e in ids {
        var j :| 0 <= j < n && ids[j] == e;
        assert forall m | 0 <= m < k :: ids[..k][m] == ids[m];
      }
    }
  }

  /** There is only one top k. */
  lemma {:induction false} TopKUnique(scores: seq<real>, k: nat, ids: seq<ExpertId>, other: seq<ExpertId>)
    requires IsTopK(scores, k, ids) && IsTopK(scores, k, other)
    ensures ids == other
  {
    if k > 0 {
      TopKPrefix(scores, k - 1, ids, k);
      TopKPrefix(scores, k - 1, other, k);
      TopKUnique(scores, k - 1, ids[..k - 1], other[..k - 1]);
      var a, b := ids[k - 1], other[k - 1];
      assert b in ids ==> b == a by {
        assert forall i | 0 <= i < k - 1 :: ids[i] == ids[..k - 1][i] == other[..k - 1][i] == other[i];
        assert forall i | 0 <= i < k - 1 :: Ranks(scores, other[i], b);
      }
      assert a in other ==> b == a by {
        assert forall i | 0 <= i < k - 1 :: ids[i] == ids[..k - 1][i] == other[..k - 1][i] == other[i];
        assert forall i | 0 <= i < k - 1 :: Ranks(scores, ids[i], a);
      }
      assert ids == ids[..k - 1] + [a] && other == other[..k - 1] + [b];
    }
  }

  /** Two score lists that order the experts alike have the same top k. */
  lemma {:induction false} TopKByOrder(scores: seq<real>, other: seq<real>, k: nat, ids: seq<ExpertId>)
    requires SameOrder(scores, other)
    ensures IsTopK(scores, k, ids) <==> IsTopK(other, k, ids)
  {
    assert forall i: nat, j: nat | i < |scores| && j < |scores| :: Ranks(scores, i, j) <==> Ranks(other, i, j);
  }

  /** The ids that are ranked, the ids that are left, and nothing lost: the
      state of a sort that has placed the first few. */
  ghost predicate Placed(scores: seq<real>, placed: seq<ExpertId>, left: set<ExpertId>) {
    && IsTopK(scores, |placed|, placed)
    && (forall e: nat :: e in left <==> e < |scores| && e !in placed)
  }

  /** The library sort with the rank order, as far as the first k places. */
  method SortPrefix(scores: seq<real>, k: nat) returns (order: seq<ExpertId>)
    requires k <= |scores|
    ensures IsTopK(scores, k, order)
  {
    order := [];
    var left := AllIds(|scores|);
    while |order| < k
      invariant |order| <= k && Placed(scores, order, left) && |left| == |scores| - |order|
    {
      var best: nat :| best in left;
      var others := left - {best};
      while others != {}
        invariant best in left && others <= left
        invariant forall e: nat | e in left && e !in others && e != best :: Ranks(scores, best, e)
        decreases |others|
      {
        var e: nat :| e in others;
        if Ranks(scores, e, best) { best := e; }
        others := others - {e};
      }
      order := order + [best];
      left := left - {best};
    }
  }

  function AllIds(n: nat): (ids: set<ExpertId>)
    ensures |ids| == n && forall e: nat :: e in ids <==> e < n
  {
    if n == 0 then {} else AllIds(n - 1) + {n - 1}
  }

  lemma {:induction false} TopKExists(scores: seq<real>, k: nat) returns (ids: seq<ExpertId>, left: set<ExpertId>)
    requires k <= |scores|
    ensures |ids| == k && Placed(scores, ids, left) && |left| == |scores| - k
  {
    if k == 0 {
      ids, left := [], AllIds(|scores|);
    } else {
      ids, left := TopKExists(scores, k - 1);
      var best := BestOf(scores, left);
      ids, left := ids + [best], left - {best};
    }
  }

  lemma {:induction false} BestOf(scores: seq<real>, left: set<ExpertId>) returns (best: ExpertId)
    requires left != {} && forall e: nat | e in left :: e < |scores|
    ensures best in left && forall e: nat | e in left && e != best :: Ranks(scores, best, e)
    decreases left
  {
    var some: nat :| some in left;
    best := some;
    var others := left - {some};
    if others != {} {
      var rest := BestOf(scores, others);
      if Ranks(scores, rest, some) {
        best := rest;
      }
    }
    assert forall e: nat | e in left && e != some :: e in others;
  }

  ghost function TopK(scores: seq<real>, k: nat): (ids: seq<ExpertId>)
    requires k <= |scores|
    ensures IsTopK(scores, k, ids)
  {
    assert exists ids :: IsTopK(scores, k, ids) by {
      var ids, left := TopKExists(scores, k);
    }
    var ids :| IsTopK(scores, k, ids);
    ids
  }

  // ---- the decision ----

  ghost function Normalised(exp: real -> real, logits: seq<real>, config: RouterConfig): (scores: seq<real>)
    requires IsExp(exp) && logits != []
    ensures |scores| == |logits|
  {
    ExponentialsPositive(exp, logits, Maximum(logits));
    if config.softmax then Softmax(exp, logits) else logits
  }

  function Picked(scores: seq<real>, ids: seq<ExpertId>): (r: seq<real>)
    requires forall i | 0 <= i < |ids| :: ids[i] < |scores|
    ensures |r| == |ids|
  {
    seq(|ids|, i requires 0 <= i < |ids| => scores[ids[i]])
  }

  /** The decision the router owes for these logits. */
  ghost function Route(exp: real -> real, logits: seq<real>, config: RouterConfig): (r: Result<Decision, RouterError>)
    requires IsExp(exp)
  {
    if !config.Valid() then Err(InvalidConfig)
    else if |logits| != config.expertCount then Err(InvalidDimensions)
    else
      var scores := Normalised(exp, logits, config);
      var ids := TopK(scores, config.topK);
      var picked := Picked(scores, ids);
      if !config.renormalize then Ok(Decision(ids, picked))
      else if Sum(picked) == 0.0 then Err(CannotRenormalize)
      else Ok(Decision(ids, Scaled(picked, Sum(picked))))
  }

  /** What a decision means: its experts are the k best by the raw logits,
      whatever the normalisation; renormalised scores sum to one; softmax
      scores are positive and in the same order, and softmax never fails. */
  lemma {:induction false} RouteMeans(exp: real -> real, logits: seq<real>, config: RouterConfig)
    requires IsExp(exp) && config.Valid() && |logits| == config.expertCount
    ensures Route(exp, logits, config).Ok? || (!config.softmax && config.renormalize)
    ensures Route(exp, logits, config).Ok? ==>
      var d := Route(exp, logits, config).value;
      && IsTopK(logits, config.topK, d.ids)
      && |d.scores| == config.topK
      && (config.renormalize ==> Sum(d.scores) == 1.0)
      && (config.softmax ==> forall i | 0 <= i < config.topK :: 0.0 < d.scores[i])
      && (config.softmax ==> forall i, j | 0 <= i < j < config.topK :: d.scores[j] <= d.scores[i])
  {
    hide Scaled, Sum, Maximum;
    var scores := Normalised(exp, logits, config);
    var ids := TopK(scores, config.topK);
    var picked := Picked(scores, ids);
    if config.softmax {
      SoftmaxKeepsOrder(exp, logits);
      TopKByOrder(scores, logits, config.topK, ids);
      assert forall i, j | 0 <= i < j < config.topK :: Ranks(scores, ids[i], ids[j]);
      SumPositive(picked);
      assert picked[0] > 0.0;
    }
    if config.renormalize && Sum(picked) != 0.0 {
      RenormalisedMeans(picked);
    }
  }

  lemma {:induction false} RenormalisedMeans(picked: seq<real>)
    requires Sum(picked) != 0.0
    ensures Sum(Scaled(picked, Sum(picked))) == 1.0
    ensures Sum(picked) > 0.0 ==> SameOrder(Scaled(picked, Sum(picked)), picked)
    ensures Sum(picked) > 0.0 ==> forall i | 0 <= i < |picked| && picked[i] > 0.0 :: Scaled(picked, Sum(picked))[i] > 0.0
  {
    hide Scaled, Sum;
    SumScaled(picked, Sum(picked));
    DivideBySelf(Sum(picked));
    if Sum(picked) > 0.0 {
      ScaledOrder(picked, Sum(picked));
    }
  }

  method MaximumOf(s: seq<real>) returns (maximum: real)
    requires s != []
    ensures IsMaximum(s, maximum)
  {
    maximum := s[0];
    for i := 1 to |s|
      invariant maximum in s && forall j | 0 <= j < i :: s[j] <= maximum
    {
      if s[i] > maximum { maximum := s[i]; }
    }
  }

  /** Exponentials in place, their sum beside them. */
  method ExponentiateInPlace(exp: real -> real, s: seq<real>, m: real) returns (e: seq<real>, denominator: real)
    ensures e == Exponentials(exp, s, m) && denominator == Sum(e)
  {
    e, denominator := s, 0.0;
    ghost var all := Exponentials(exp, s, m);
    for i := 0 to |s|
      invariant |e| == |s| && denominator == Sum(all[..i])
      invariant forall j | 0 <= j < |s| :: e[j] == if j < i then all[j] else s[j]
    {
      e := e[i := exp(e[i] - m)];
      denominator := denominator + e[i];
      assert all[..i + 1] == all[..i] + [all[i]];
      SumPush(all[..i], all[i]);
    }
    assert e == all == all[..|s|];
  }

  method SoftmaxInPlace(exp: real -> real, logits: seq<real>) returns (scores: seq<real>)
    requires IsExp(exp) && logits != []
    ensures Sum(Exponentials(exp, logits, Maximum(logits))) > 0.0
    ensures scores == Softmax(exp, logits)
  {
    hide Sum, Maximum;
    ExponentialsPositive(exp, logits, Maximum(logits));
    var maximum := MaximumOf(logits);
    var e, denominator := ExponentiateInPlace(exp, logits, maximum);
    scores := e;
    for i := 0 to |logits|
      invariant |scores| == |logits|
      invariant forall j | 0 <= j < |logits| :: scores[j] == if j < i then e[j] / denominator else e[j]
    {
      scores := scores[i := scores[i] / denominator];
    }
  }

  method SumOf(s: seq<real>) returns (sum: real)
    ensures sum == Sum(s)
  {
    sum := 0.0;
    for i := 0 to |s|
      invariant sum == Sum(s[..i])
    {
      assert s[..i + 1] == s[..i] + [s[i]];
      SumPush(s[..i], s[i]);
      sum := sum + s[i];
    }
    assert s[..|s|] == s;
  }

  /** The tail of both routers: the selected scores, renormalised if asked. */
  method Select(scores: seq<real>, ids: seq<ExpertId>, renormalize: bool) returns (r: Result<Decision, RouterError>)
    requires forall i | 0 <= i < |ids| :: ids[i] < |scores|
    ensures r ==
      var picked := Picked(scores, ids);
      if !renormalize then Ok(Decision(ids, picked))
      else if Sum(picked) == 0.0 then Err(CannotRenormalize)
      else Ok(Decision(ids, Scaled(picked, Sum(picked))))
  {
    var picked: seq<real> := [];
    for i := 0 to |ids|
      invariant picked == Picked(scores, ids)[..i]
    {
      picked := picked + [scores[ids[i]]];
    }
    assert picked == Picked(scores, ids);
    if renormalize {
      var sum := SumOf(picked);
      if sum == 0.0 {
        return Err(CannotRenormalize);
      }
      return Ok(Decision(ids, Scaled(picked, sum)));
    }
    return Ok(Decision(ids, picked));
  }

  /** The runtime's router for one token: scores by loops, softmax in place, a
      partial sort for the first k. */
  method RouteToken(exp: real -> real, hidden: seq<real>, weights: seq<real>, config: RouterConfig)
    returns (r: Result<Decision, RouterError>)
    requires IsExp(exp) && config.Valid() && |weights| == |hidden| * config.expertCount
    ensures r == Route(exp, Product(hidden, weights, config.expertCount), config)
  {
    var scores: seq<real> := [];
    for expert := 0 to config.expertCount
      invariant scores == Product(hidden, weights, config.expertCount)[..expert]
    {
      var score := DotColumn(hidden, weights, config.expertCount, expert);
      scores := scores + [score];
    }
    ghost var logits := scores;
    assert logits == Product(hidden, weights, config.expertCount);
    if config.softmax {
      scores := SoftmaxInPlace(exp, scores);
    }
    var ids := SortPrefix(scores, config.topK);
    TopKUnique(scores, config.topK, ids, TopK(scores, config.topK));
    r := Select(scores, ids, config.renormalize);
  }

  /** The oracle: it sorts all the experts and cuts the list at k. */
  method SelectFromLogits(exp: real -> real, logits: seq<real>, config: RouterConfig)
    returns (r: Result<Decision, RouterError>)
    requires IsExp(exp)
    ensures r == Route(exp, logits, config)
  {
    if !config.Valid() {
      return Err(InvalidConfig);
    }
    if |logits| != config.expertCount {
      return Err(InvalidDimensions);
    }
    var scores := logits;
    if config.softmax {
      scores := SoftmaxInPlace(exp, scores);
    }
    var order := SortPrefix(scores, config.expertCount);
    TopKPrefix(scores, config.topK, order, config.expertCount);
    TopKUnique(scores, config.topK, order[..config.topK], TopK(scores, config.topK));
    r := Select(scores, order[..config.topK], config.renormalize);
  }
}
