/**
The numeric parts written out: what the router, an expert and attention compute
from the flat arrays they are given. A sum is stated for the list of its terms,
and a quotient is multiplied out, so that no formula here names a function that
the loops are proved against.
 */
module ProductFormulas {
  import opened Matrices

  /** Row-major: row after row, one cell after another. */
  lemma {:induction false} CellIs(values: seq<real>, rows: nat, width: nat, r: nat, h: nat)
    requires |values| == rows * width && r < rows && h < width
    ensures 0 <= r * width + h < |values| && Cell(values, rows, width, r, h) == values[r * width + h]
  {
    CellBound(rows, width, r, h);
  }

  /** Running totals: from nothing, one term after another. */
  ghost predicate Runs(terms: seq<real>, totals: seq<real>) {
    && |totals| == |terms| + 1 && totals[0] == 0.0
    && forall i | 0 <= i < |terms| :: totals[i + 1] == totals[i] + terms[i]
  }

  ghost predicate SumsTo(terms: seq<real>, value: real) {
    exists totals: seq<real> :: Runs(terms, totals) && totals[|terms|] == value
  }

  lemma {:induction false} SumIs(terms: seq<real>, value: real)
    ensures SumsTo(terms, value) <==> value == Sum(terms)
  {
    hide Sum, Runs;
    var own := SumRunsTo(terms);
    forall totals: seq<real> | Runs(terms, totals) ensures |totals| == |terms| + 1 && totals[|terms|] == Sum(terms) {
      RunningTotal(terms, totals, |terms|);
      assert terms[..|terms|] == terms;
    }
  }

  lemma {:induction false} SumRunsTo(terms: seq<real>) returns (totals: seq<real>)
    ensures Runs(terms, totals) && totals[|terms|] == Sum(terms)
  {
    if terms == [] {
      totals := [0.0];
    } else {
      var n := |terms| - 1;
      var front := SumRunsTo(terms[..n]);
      totals := front + [front[n] + terms[n]];
      forall i | 0 <= i < |terms| ensures totals[i + 1] == totals[i] + terms[i] {
        if i < n {
          assert front[i + 1] == front[i] + terms[..n][i];
        }
      }
    }
  }

  lemma {:induction false} RunningTotal(terms: seq<real>, totals: seq<real>, n: nat)
    requires n <= |terms| && Runs(terms, totals)
    ensures |totals| == |terms| + 1 && totals[n] == Sum(terms[..n])
  {
    if n > 0 {
      RunningTotal(terms, totals, n - 1);
      assert terms[..n][..n - 1] == terms[..n - 1];
    }
  }

  lemma {:induction false} DotIs(x: seq<real>, y: seq<real>, terms: seq<real>, n: nat)
    requires n <= |x| && n <= |y| && n <= |terms| && forall i | 0 <= i < n :: terms[i] == x[i] * y[i]
    ensures Dot(x, y, n) == Sum(terms[..n])
  {
    if n > 0 {
      DotIs(x, y, terms, n - 1);
      assert terms[..n][..n - 1] == terms[..n - 1];
    }
  }

  /** An entry of a product: the sum of row entry times column entry. */
  ghost predicate IsEntry(x: seq<real>, matrix: seq<real>, width: nat, h: nat, value: real)
    requires |matrix| == |x| * width && h < width
  {
    forall terms: seq<real> | |terms| == |x| && IsTerms(terms, x, matrix, width, h) :: SumsTo(terms, value)
  }

  ghost predicate IsTerms(terms: seq<real>, x: seq<real>, matrix: seq<real>, width: nat, h: nat)
    requires |terms| == |x| && |matrix| == |x| * width && h < width
  {
    forall i | 0 <= i < |x| :: i * width + h < |matrix| && terms[i] == x[i] * matrix[i * width + h]
  }

  lemma {:induction false} ColumnIs(matrix: seq<real>, rows: nat, width: nat, h: nat)
    requires |matrix| == rows * width && h < width
    ensures forall i | 0 <= i < rows :: 0 <= i * width + h < |matrix|
    ensures forall i | 0 <= i < rows :: Column(matrix, rows, width, h)[i] == matrix[i * width + h]
  {
    forall i | 0 <= i < rows
      ensures 0 <= i * width + h < |matrix| && Column(matrix, rows, width, h)[i] == matrix[i * width + h]
    {
      CellIs(matrix, rows, width, i, h);
    }
  }

  lemma {:induction false} TermsAre(terms: seq<real>, x: seq<real>, matrix: seq<real>, width: nat, h: nat)
    requires |terms| == |x| && |matrix| == |x| * width && h < width
    ensures IsTerms(terms, x, matrix, width, h) <==>
      forall i | 0 <= i < |x| :: terms[i] == x[i] * Column(matrix, |x|, width, h)[i]
  {
    ColumnIs(matrix, |x|, width, h);
    hide Column;
  }

  lemma {:induction false} EntryIs(x: seq<real>, matrix: seq<real>, width: nat, h: nat, value: real)
    requires |matrix| == |x| * width && h < width
    ensures IsEntry(x, matrix, width, h, value) <==> value == Product(x, matrix, width)[h]
  {
    hide Sum, Dot, SumsTo, IsTerms, Column;
    var column := Column(matrix, |x|, width, h);
    var own := seq(|x|, i requires 0 <= i < |x| => x[i] * column[i]);
    TermsAre(own, x, matrix, width, h);
    forall terms: seq<real> | |terms| == |x| && IsTerms(terms, x, matrix, width, h) ensures terms == own {
      TermsAre(terms, x, matrix, width, h);
    }
    DotIs(x, column, own, |x|);
    assert own[..|x|] == own;
    SumIs(own, value);
  }
}

/** The router's decision in terms of the logits, and those in terms of the batch. */
module RoutingFormulas {
  import opened Wrappers
  import opened Matrices
  import opened Routing
  import opened Grouping
  import opened ProductFormulas

  lemma {:induction false} QuotientTimes(x: real, t: real)
    requires t != 0.0
    ensures x / t * t == x
  {
  }

  lemma {:induction false} Proportional(r: real, q: real, t: real)
    ensures r * (q * t) == q * (r * t)
  {
  }

  /** The logits of the experts in a decision, by rank. */
  ghost predicate SelectedLogits(d: Decision, logits: seq<real>, own: seq<real>) {
    |own| == |d.ids| && forall i | 0 <= i < |d.ids| :: d.ids[i] < |logits| && own[i] == logits[d.ids[i]]
  }

  /** Without softmax a score is its expert's own logit, or its share of the
      selected logits. */
  lemma {:induction false} RawScores(exp: real -> real, logits: seq<real>, config: RouterConfig, own: seq<real>)
    requires IsExp(exp) && config.Valid() && |logits| == config.expertCount && !config.softmax
    requires Route(exp, logits, config).Ok? && SelectedLogits(Route(exp, logits, config).value, logits, own)
    ensures var d := Route(exp, logits, config).value;
      |d.scores| == |d.ids| == config.topK &&
      if config.renormalize then Sum(own) != 0.0 && forall i | 0 <= i < |own| :: d.scores[i] * Sum(own) == own[i]
      else d.scores == own
  {
    hide Sum, IsTopK;
    var ids := TopK(logits, config.topK);
    TopKInside(logits, config.topK, ids);
    assert Picked(logits, ids) == own;
    if config.renormalize {
      hide Scaled;
      forall i | 0 <= i < |own| ensures Scaled(own, Sum(own))[i] * Sum(own) == own[i] {
        ScaledTimes(own, Sum(own), i);
      }
    }
  }

  /** With softmax it is the exponential of its distance to the best logit, over
      the sum of all those exponentials, or of the selected ones. */
  lemma {:induction false} SoftmaxScores(exp: real -> real, logits: seq<real>, config: RouterConfig, m: real,
                                         all: seq<real>)
    requires IsExp(exp) && config.Valid() && |logits| == config.expertCount && config.softmax && IsMaximum(logits, m)
    requires |all| == |logits| && forall e | 0 <= e < |logits| :: all[e] == exp(logits[e] - m)
    ensures Route(exp, logits, config).Ok? && Sum(all) > 0.0
    ensures var d := Route(exp, logits, config).value;
      && |d.scores| == |d.ids| == config.topK && (forall i | 0 <= i < |d.ids| :: d.ids[i] < |logits|)
      && (!config.renormalize ==> forall i | 0 <= i < |d.ids| :: d.scores[i] * Sum(all) == all[d.ids[i]])
      && (config.renormalize ==> forall i, j | 0 <= i < |d.ids| && 0 <= j < |d.ids| ::
            d.scores[i] * all[d.ids[j]] == d.scores[j] * all[d.ids[i]])
  {
    hide Sum, Scaled, Softmax, Route, Normalised, TopK, IsTopK, Exponentials, Maximum, IsMaximum;
    assert Exponentials(exp, logits, m) == all by { ExponentialsAre(exp, logits, m, all); }
    ExponentialsPositive(exp, logits, m);
    MaximumIs(logits, m);
    var ids, picked := RouteParts(exp, logits, config);
    SoftmaxIs(exp, logits, m, all);
    if config.renormalize {
      SharesKeepRatio(picked, Scaled(picked, Sum(picked)), all, ids, Sum(all));
    }
  }

  lemma {:induction false} ExponentialsAre(exp: real -> real, logits: seq<real>, m: real, all: seq<real>)
    requires |all| == |logits| && forall e | 0 <= e < |logits| :: all[e] == exp(logits[e] - m)
    ensures Exponentials(exp, logits, m) == all
  {
  }

  /** The parts of a decision by softmax, which there always is. */
  lemma {:induction false} RouteParts(exp: real -> real, logits: seq<real>, config: RouterConfig)
    returns (ids: seq<ExpertId>, picked: seq<real>)
    requires IsExp(exp) && config.Valid() && |logits| == config.expertCount && config.softmax
    ensures Route(exp, logits, config).Ok? && Sum(Exponentials(exp, logits, Maximum(logits))) != 0.0
    ensures |ids| == |picked| == config.topK
    ensures forall i | 0 <= i < |ids| :: ids[i] < |logits| && picked[i] == Softmax(exp, logits)[ids[i]]
    ensures var d := Route(exp, logits, config).value;
      && d.ids == ids
      && (!config.renormalize ==> d.scores == picked)
      && (config.renormalize ==> Sum(picked) != 0.0 && d.scores == Scaled(picked, Sum(picked)))
  {
    hide Sum, IsTopK, Scaled, Exponentials, Maximum, IsMaximum;
    ExponentialsPositive(exp, logits, Maximum(logits));
    RouteMeans(exp, logits, config);
    ids := TopK(Normalised(exp, logits, config), config.topK);
    TopKInside(Normalised(exp, logits, config), config.topK, ids);
    picked := Picked(Normalised(exp, logits, config), ids);
  }

  /** Renormalising keeps the ratios. */
  lemma {:induction false} SharesKeepRatio(picked: seq<real>, shares: seq<real>, all: seq<real>, ids: seq<ExpertId>,
                                           total: real)
    requires |ids| == |picked| && Sum(picked) != 0.0 && shares == Scaled(picked, Sum(picked))
    requires forall i | 0 <= i < |ids| :: ids[i] < |all| && picked[i] * total == all[ids[i]]
    ensures forall i, j | 0 <= i < |ids| && 0 <= j < |ids| :: shares[i] * all[ids[j]] == shares[j] * all[ids[i]]
  {
    hide Sum, Scaled;
    forall i, j | 0 <= i < |ids| && 0 <= j < |ids| ensures shares[i] * all[ids[j]] == shares[j] * all[ids[i]] {
      ScaledTimes(picked, Sum(picked), i);
      ScaledTimes(picked, Sum(picked), j);
      TwoSteps(shares[i], picked[i], all[ids[i]], shares[j], picked[j], all[ids[j]], Sum(picked), total);
    }
  }

  lemma {:induction false} MaximumIs(logits: seq<real>, m: real)
    requires logits != [] && IsMaximum(logits, m)
    ensures Maximum(logits) == m
  {
  }

  lemma {:induction false} SoftmaxIs(exp: real -> real, logits: seq<real>, m: real, all: seq<real>)
    requires IsExp(exp) && logits != [] && Maximum(logits) == m && all == Exponentials(exp, logits, m) && Sum(all) > 0.0
    ensures forall e | 0 <= e < |logits| :: Softmax(exp, logits)[e] * Sum(all) == all[e]
  {
    hide Sum, Scaled, Exponentials, Maximum;
    forall e | 0 <= e < |logits| ensures Softmax(exp, logits)[e] * Sum(all) == all[e] {
      ScaledTimes(all, Sum(all), e);
    }
  }

  lemma {:induction false} TopKInside(scores: seq<real>, k: nat, ids: seq<ExpertId>)
    requires IsTopK(scores, k, ids)
    ensures |ids| == k && forall i | 0 <= i < k :: ids[i] < |scores|
  {
  }

  lemma {:induction false} ScaledTimes(s: seq<real>, t: real, i: nat)
    requires t != 0.0 && i < |s|
    ensures Scaled(s, t)[i] * t == s[i]
  {
    QuotientTimes(s[i], t);
  }

  lemma {:induction false} TwoSteps(a: real, b: real, c: real, a': real, b': real, c': real, p: real, t: real)
    requires a * p == b && b * t == c && a' * p == b' && b' * t == c'
    ensures a * c' == a' * c
  {
    assert c == a * (p * t) && c' == a' * (p * t);
    Proportional(a, a', p * t);
  }

  /** When there is no decision: a configuration outside its bounds, logits of
      the wrong number, or selected raw logits that cannot be renormalised
      because they sum to nothing. */
  lemma {:induction false} RouteErrors(exp: real -> real, logits: seq<real>, config: RouterConfig)
    requires IsExp(exp)
    ensures var r := Route(exp, logits, config);
      var good := 0 < config.expertCount < 0x1_0000_0000 && 0 < config.topK <= config.expertCount;
      && (r == Err(InvalidConfig) <==> !good)
      && (r == Err(InvalidDimensions) <==> good && |logits| != config.expertCount)
      && (r.Err? ==> r.error == InvalidConfig || r.error == InvalidDimensions || r.error == CannotRenormalize)
      && (r == Err(CannotRenormalize) <==>
            && good && |logits| == config.expertCount && !config.softmax && config.renormalize
            && exists ids, own: seq<real> ::
                 IsTopK(logits, config.topK, ids) && SelectedLogits(Decision(ids, own), logits, own) && Sum(own) == 0.0)
  {
    hide Sum;
    if config.Valid() && |logits| == config.expertCount {
      RouteMeans(exp, logits, config);
      if !config.softmax && config.renormalize {
        var ids := TopK(logits, config.topK);
        TopKInside(logits, config.topK, ids);
        var own := Picked(logits, ids);
        assert SelectedLogits(Decision(ids, own), logits, own);
        forall other, theirs: seq<real> |
          IsTopK(logits, config.topK, other) && SelectedLogits(Decision(other, theirs), logits, theirs)
          ensures theirs == own
        {
          TopKUnique(logits, config.topK, other, ids);
        }
        hide IsTopK, TopK;
      }
    }
  }

  /** The flat selection holds token t's rank r at t * k + r. */
  lemma {:induction false} SelectionAt(ids: seq<ExpertId>, scores: seq<real>, k: nat, ds: seq<Decision>, t: nat, r: nat)
    requires IsSelection(ids, scores, k, ds) && t < |ds| && r < k
    ensures 0 <= t * k + r < |ids| == |scores| && |ds[t].ids| == |ds[t].scores| == k
    ensures ds[t].ids[r] == ids[t * k + r] && ds[t].scores[r] == scores[t * k + r]
  {
    assert Matches(ids, scores, k, t, ds[t]);
    var from := Offset(t, k);
    assert from == t * k;
    assert ids[from..from + k][r] == ids[from + r] && scores[from..from + k][r] == scores[from + r];
  }

  /** A token's logits: each the sum, over the hidden components, of component
      times weight. */
  ghost predicate AreLogits(hidden: seq<real>, tokenCount: nat, hiddenSize: nat, weights: seq<real>, expertCount: nat,
                            t: nat, logits: seq<real>)
    requires |hidden| == tokenCount * hiddenSize && t < tokenCount && |weights| == hiddenSize * expertCount
  {
    exists x: seq<real> :: |x| == hiddenSize && IsToken(x, hidden, hiddenSize, t)
      && |logits| == expertCount && forall e | 0 <= e < expertCount :: IsEntry(x, weights, expertCount, e, logits[e])
  }

  ghost predicate IsToken(x: seq<real>, hidden: seq<real>, width: nat, t: nat) {
    var first := t * width;
    && |x| == width && 0 <= first && first + width <= |hidden|
    && forall i | 0 <= i < width :: x[i] == hidden[first + i]
  }

  lemma {:induction false} RowIs(values: seq<real>, rows: nat, width: nat, r: nat, first: nat, i: nat)
    requires |values| == rows * width && r < rows && i < width && first == r * width
    ensures first + i < |values| && Row(values, rows, width, r)[i] == values[first + i]
  {
    CellIs(values, rows, width, r, i);
  }

  lemma {:induction false} RowFits(rows: nat, width: nat, r: nat)
    requires r < rows
    ensures 0 <= r * width && r * width + width <= rows * width
  {
    assert (r + 1) * width <= rows * width;
  }

  lemma {:induction false} TokenIs(hidden: seq<real>, tokenCount: nat, width: nat, t: nat, x: seq<real>)
    requires |hidden| == tokenCount * width && t < tokenCount
    ensures IsToken(x, hidden, width, t) <==> x == Row(hidden, tokenCount, width, t)
  {
    RowFits(tokenCount, width, t);
    var first := t * width;
    var row := Row(hidden, tokenCount, width, t);
    forall i | 0 <= i < width ensures row[i] == hidden[first + i] {
      RowIs(hidden, tokenCount, width, t, first, i);
    }
    hide Row;
    SameList(x, row, hidden, first);
  }

  lemma {:induction false} SameList(x: seq<real>, row: seq<real>, values: seq<real>, first: nat)
    requires first + |row| <= |values| && forall i | 0 <= i < |row| :: row[i] == values[first + i]
    ensures x == row <==> |x| == |row| && forall i | 0 <= i < |row| :: x[i] == values[first + i]
  {
  }

  /** The batch routes every token by exactly those logits. */
  lemma {:induction false} RoutedByLogits(exp: real -> real, hidden: seq<real>, tokenCount: nat, hiddenSize: nat,
                                          weights: seq<real>, config: RouterConfig, t: nat, logits: seq<real>)
    requires IsExp(exp) && config.Valid() && t < tokenCount
    requires |hidden| == tokenCount * hiddenSize && |weights| == hiddenSize * config.expertCount
    requires AreLogits(hidden, tokenCount, hiddenSize, weights, config.expertCount, t, logits)
    ensures RouteOf(exp, hidden, tokenCount, hiddenSize, weights, config, t) == Route(exp, logits, config)
  {
    hide Route, IsToken, IsEntry, Row, Product;
    var x: seq<real> :| |x| == hiddenSize && IsToken(x, hidden, hiddenSize, t)
      && |logits| == config.expertCount
      && forall e | 0 <= e < config.expertCount :: IsEntry(x, weights, config.expertCount, e, logits[e]);
    TokenIs(hidden, tokenCount, hiddenSize, t, x);
    forall e | 0 <= e < config.expertCount ensures logits[e] == Product(x, weights, config.expertCount)[e] {
      EntryIs(x, weights, config.expertCount, e, logits[e]);
    }
    assert logits == Product(x, weights, config.expertCount);
  }
}

/** An expert's output, and a token's combination of them. */
module ExpertFormulas {
  import opened Wrappers
  import opened Matrices
  import opened Routing
  import opened Experts
  import opened Combination
  import opened ProductFormulas
  import opened RoutingFormulas

  /** One intermediate component: the gate projection g times the up projection
      u, damped by 1 + exp(-g). */
  predicate Damped(exp: real -> real, g: real, u: real, value: real) {
    value * (1.0 + exp(-g)) == g * u
  }

  lemma {:induction false} DampedIs(exp: real -> real, g: real, u: real, value: real)
    requires IsExp(exp)
    ensures Damped(exp, g, u, value) <==> value == GatedEntry(exp, g, u)
  {
    var t := 1.0 + exp(-g);
    assert t > 0.0;
    DividedTimes(g, t, u);
    if value * t == g * u {
      TimesDivided(value, t, GatedEntry(exp, g, u));
    }
  }

  lemma {:induction false} DividedTimes(g: real, t: real, u: real)
    requires t != 0.0
    ensures g / t * u * t == g * u
  {
    QuotientTimes(g, t);
    assert g / t * u * t == g / t * t * u;
  }

  lemma {:induction false} TimesDivided(a: real, t: real, b: real)
    requires t > 0.0 && a * t == b * t
    ensures a == b
  {
    assert (a - b) * t == 0.0;
  }

  /** The intermediate components of an expert for a row: each gate and up
      projection is a sum of products with its own column. */
  ghost predicate AreGated(exp: real -> real, w: Weights, x: seq<real>, gated: seq<real>)
    requires |w.gate| == |w.up| == |x| * w.intermediate
  {
    |gated| == w.intermediate && forall j | 0 <= j < w.intermediate :: IsGatedAt(exp, w, x, j, gated[j])
  }

  ghost predicate IsGatedAt(exp: real -> real, w: Weights, x: seq<real>, j: nat, value: real)
    requires |w.gate| == |w.up| == |x| * w.intermediate && j < w.intermediate
  {
    forall g, u | IsEntry(x, w.gate, w.intermediate, j, g) && IsEntry(x, w.up, w.intermediate, j, u) ::
      Damped(exp, g, u, value)
  }

  lemma {:induction false} GatedIs(exp: real -> real, w: Weights, x: seq<real>, gated: seq<real>)
    requires IsExp(exp) && |w.gate| == |w.up| == |x| * w.intermediate
    ensures AreGated(exp, w, x, gated) <==> gated == Gated(exp, w, x)
  {
    hide IsEntry, Damped, GatedEntry, Product, IsExp;
    forall j, value | 0 <= j < w.intermediate
      ensures IsGatedAt(exp, w, x, j, value) <==> value == Gated(exp, w, x)[j]
    {
      GatedAtIs(exp, w, x, j, value);
    }
    hide IsGatedAt, Gated;
    if AreGated(exp, w, x, gated) {
      assert gated == Gated(exp, w, x);
    }
  }

  lemma {:induction false} GatedAtIs(exp: real -> real, w: Weights, x: seq<real>, j: nat, value: real)
    requires IsExp(exp) && |w.gate| == |w.up| == |x| * w.intermediate && j < w.intermediate
    ensures IsGatedAt(exp, w, x, j, value) <==> value == Gated(exp, w, x)[j]
  {
    hide IsEntry, Damped, GatedEntry, Product;
    var g, u := Product(x, w.gate, w.intermediate)[j], Product(x, w.up, w.intermediate)[j];
    forall v ensures IsEntry(x, w.gate, w.intermediate, j, v) <==> v == g {
      EntryIs(x, w.gate, w.intermediate, j, v);
    }
    forall v ensures IsEntry(x, w.up, w.intermediate, j, v) <==> v == u {
      EntryIs(x, w.up, w.intermediate, j, v);
    }
    DampedIs(exp, g, u, value);
  }

  /** An expert's output for a row: every component is the sum, over the
      intermediate components, of component times down weight. */
  lemma {:induction false} OutputIs(exp: real -> real, w: Weights, x: seq<real>, outputWidth: nat, gated: seq<real>,
                                    h: nat, value: real)
    requires IsExp(exp) && Fits(w, |x|, outputWidth) && AreGated(exp, w, x, gated) && h < outputWidth
    ensures IsEntry(gated, w.down, outputWidth, h, value) <==> value == Mlp(exp, w, x, outputWidth)[h]
  {
    GatedIs(exp, w, x, gated);
    EntryIs(gated, w.down, outputWidth, h, value);
    hide IsEntry, Product, Gated, AreGated;
  }

  /** With one intermediate component, the whole formula in one line. */
  lemma {:induction false} NarrowOutput(exp: real -> real, w: Weights, x: seq<real>, outputWidth: nat, g: real, u: real,
                                        h: nat)
    requires IsExp(exp) && Fits(w, |x|, outputWidth) && w.intermediate == 1 && h < outputWidth
    requires IsEntry(x, w.gate, 1, 0, g) && IsEntry(x, w.up, 1, 0, u)
    ensures Mlp(exp, w, x, outputWidth)[h] * (1.0 + exp(-g)) == g * u * w.down[h]
  {
    EntryIs(x, w.gate, 1, 0, g);
    EntryIs(x, w.up, 1, 0, u);
    hide IsEntry, Product, Mlp;
    NarrowMlp(exp, w, x, outputWidth, g, u, h);
  }

  lemma {:induction false} NarrowMlp(exp: real -> real, w: Weights, x: seq<real>, outputWidth: nat, g: real, u: real,
                                     h: nat)
    requires IsExp(exp) && Fits(w, |x|, outputWidth) && w.intermediate == 1 && h < outputWidth
    requires g == Product(x, w.gate, 1)[0] && u == Product(x, w.up, 1)[0]
    ensures Mlp(exp, w, x, outputWidth)[h] * (1.0 + exp(-g)) == g * u * w.down[h]
  {
    hide Product, Gated, Damped, GatedEntry;
    var gated := Gated(exp, w, x);
    GatedFirst(exp, w, x, g, u);
    DampedIs(exp, g, u, gated[0]);
    ProductOfOne(gated, w.down, outputWidth, h);
    Regroup(exp, g, u, gated[0], w.down[h]);
  }

  lemma {:induction false} GatedFirst(exp: real -> real, w: Weights, x: seq<real>, g: real, u: real)
    requires IsExp(exp) && |w.gate| == |w.up| == |x| * w.intermediate && w.intermediate == 1
    requires g == Product(x, w.gate, 1)[0] && u == Product(x, w.up, 1)[0]
    ensures Gated(exp, w, x)[0] == GatedEntry(exp, g, u)
  {
    hide Product, GatedEntry;
  }

  lemma {:induction false} ProductOfOne(x: seq<real>, matrix: seq<real>, width: nat, h: nat)
    requires |x| == 1 && |matrix| == 1 * width && h < width
    ensures Product(x, matrix, width)[h] == x[0] * matrix[h]
  {
    CellIs(matrix, 1, width, 0, h);
    var column := Column(matrix, 1, width, h);
    assert column[0] == matrix[h];
    assert Dot(x, column, 1) == Dot(x, column, 0) + x[0] * column[0];
  }

  lemma {:induction false} Regroup(exp: real -> real, g: real, u: real, value: real, b: real)
    requires Damped(exp, g, u, value)
    ensures value * b * (1.0 + exp(-g)) == g * u * b
  {
    Swapped(value, b, 1.0 + exp(-g));
  }

  lemma {:induction false} Swapped(a: real, b: real, t: real)
    ensures a * b * t == a * t * b
  {
  }

  /** What a token is owed: over its ranks, score times that expert's output. */
  lemma {:induction false} OwedIs(out: Output, d: Decision, token: nat, h: nat, terms: seq<real>)
    requires |terms| == |d.ids| == |d.scores|
    requires forall i | 0 <= i < |terms| :: terms[i] == d.scores[i] * out(d.ids[i], token, h)
    ensures SumsTo(terms, Owed(out, d, token, h, |d.ids|))
  {
    OwedPrefix(out, d, token, h, terms, |terms|);
    assert terms[..|terms|] == terms;
    SumIs(terms, Owed(out, d, token, h, |d.ids|));
  }

  lemma {:induction false} OwedPrefix(out: Output, d: Decision, token: nat, h: nat, terms: seq<real>, n: nat)
    requires n <= |terms| == |d.ids| == |d.scores|
    requires forall i | 0 <= i < |terms| :: terms[i] == d.scores[i] * out(d.ids[i], token, h)
    ensures Owed(out, d, token, h, n) == Sum(terms[..n])
  {
    if n > 0 {
      OwedPrefix(out, d, token, h, terms, n - 1);
      assert terms[..n][..n - 1] == terms[..n - 1];
    }
  }

  /** The output a token is owed from an expert is that expert's, for the
      token's own row of the batch. */
  lemma {:induction false} OutputOfToken(exp: real -> real, experts: map<ExpertId, Weights>, hidden: seq<real>,
                                         tokenCount: nat, inputWidth: nat, outputWidth: nat, e: ExpertId, t: nat,
                                         h: nat, x: seq<real>, gated: seq<real>, value: real)
    requires IsExp(exp) && |hidden| == tokenCount * inputWidth && t < tokenCount && h < outputWidth
    requires e in experts && Fits(experts[e], inputWidth, outputWidth)
    requires IsToken(x, hidden, inputWidth, t) && AreGated(exp, experts[e], x, gated)
    ensures value == OutputOf(exp, experts, hidden, tokenCount, inputWidth, outputWidth)(e, t, h) <==>
      IsEntry(gated, experts[e].down, outputWidth, h, value)
  {
    TokenIs(hidden, tokenCount, inputWidth, t, x);
    OutputIs(exp, experts[e], x, outputWidth, gated, h, value);
    hide IsEntry, AreGated, Mlp, Row;
  }
}

/** Grouped attention over the flat cache. */
module AttentionFormulas {
  import opened Wrappers
  import opened Matrices
  import opened Routing
  import opened Attention
  import opened ProductFormulas
  import opened RoutingFormulas

  /** Query heads share key-value heads in groups of equal size, one group
      after another. */
  lemma {:induction false} SharedHead(heads: nat, keyHeads: nat, g: nat, k: nat, head: nat)
    requires g * keyHeads == heads && k < keyHeads && k * g <= head < (k + 1) * g
    ensures heads % keyHeads == 0 && heads / keyHeads == g && g > 0 && head / g == k && head < heads
  {
    DivideExactly(g, keyHeads);
    DivideInto(k, g, head);
    assert (k + 1) * g <= keyHeads * g;
  }

  lemma {:induction false} DivideExactly(g: nat, n: nat)
    requires n > 0
    ensures g * n % n == 0 && g * n / n == g
  {
    var q: int := g * n / n;
    assert (q - g) * n == -(g * n % n);
    assert q - g >= 1 ==> (q - g) * n >= n;
    assert g - q >= 1 ==> (g - q) * n >= n;
  }

  lemma {:induction false} DivideInto(k: nat, g: nat, head: nat)
    requires k * g <= head < (k + 1) * g
    ensures g > 0 && head / g == k
  {
    assert (k + 1) * g == k * g + g;
    var q := head / g;
    assert q * g <= head < q * g + g;
    assert q <= k - 1 ==> (q + 1) * g <= k * g;
    assert q >= k + 1 ==> q * g >= (k + 1) * g;
  }

  /** A token's key or value for a key-value head, in the flat cache. */
  ghost predicate IsStored(row: seq<real>, values: seq<real>, dimension: nat, keyHeads: nat, j: nat, k: nat) {
    IsToken(row, values, dimension, j * keyHeads + k)
  }

  /** The cache's list for a key-value head: each token's position, key and value. */
  ghost predicate AreEntries(entries: seq<Entry>, c: Cache, k: nat) {
    && |entries| == |c.positions|
    && forall j | 0 <= j < |entries| ::
         && entries[j].position == c.positions[j]
         && IsStored(entries[j].key, c.keys, c.dimension, c.heads, j, k)
         && IsStored(entries[j].value, c.values, c.dimension, c.heads, j, k)
  }

  lemma {:induction false} EntriesAre(c: Cache, k: nat, entries: seq<Entry>)
    requires c.Valid() && k < c.heads
    ensures AreEntries(entries, c, k) <==> entries == Entries(c, k)
  {
    forall j | 0 <= j < |c.positions|
      ensures j * c.heads + k < |c.positions| * c.heads
      ensures forall row ::
        IsStored(row, c.keys, c.dimension, c.heads, j, k) <==> row == Entries(c, k)[j].key
      ensures forall row ::
        IsStored(row, c.values, c.dimension, c.heads, j, k) <==> row == Entries(c, k)[j].value
      ensures Entries(c, k)[j].position == c.positions[j]
    {
      EntryIs(c, k, j);
    }
    hide IsStored;
    if AreEntries(entries, c, k) {
      assert forall j | 0 <= j < |entries| :: entries[j] == Entries(c, k)[j];
    }
  }

  lemma {:induction false} EntryIs(c: Cache, k: nat, j: nat)
    requires c.Valid() && k < c.heads && j < |c.positions|
    ensures j * c.heads + k < |c.positions| * c.heads
    ensures Entries(c, k)[j].position == c.positions[j]
    ensures forall row :: IsStored(row, c.keys, c.dimension, c.heads, j, k) <==> row == Entries(c, k)[j].key
    ensures forall row :: IsStored(row, c.values, c.dimension, c.heads, j, k) <==> row == Entries(c, k)[j].value
  {
    hide IsToken, Row;
    HeadBound(|c.positions|, c.heads, j, k);
    var rows, r := |c.positions| * c.heads, j * c.heads + k;
    forall row ensures IsToken(row, c.keys, c.dimension, r) <==> row == Row(c.keys, rows, c.dimension, r) {
      TokenIs(c.keys, rows, c.dimension, r, row);
    }
    forall row ensures IsToken(row, c.values, c.dimension, r) <==> row == Row(c.values, rows, c.dimension, r) {
      TokenIs(c.values, rows, c.dimension, r, row);
    }
  }

  ghost predicate AreProducts(terms: seq<real>, x: seq<real>, y: seq<real>) {
    |terms| == |x| == |y| && forall d | 0 <= d < |x| :: terms[d] == x[d] * y[d]
  }

  /** The score of a key: the sum of products with the query, scaled. */
  ghost predicate IsScore(q: seq<real>, key: seq<real>, scale: real, value: real) {
    forall terms, dot | AreProducts(terms, q, key) && SumsTo(terms, dot) :: value == dot * scale
  }

  lemma {:induction false} ScoreFormula(q: seq<real>, e: Entry, scale: real, value: real)
    requires |e.key| == |q|
    ensures IsScore(q, e.key, scale, value) <==> value == Score(q, e, scale)
  {
    hide SumsTo, Dot;
    var own := seq(|q|, d requires 0 <= d < |q| => q[d] * e.key[d]);
    assert AreProducts(own, q, e.key);
    DotIs(q, e.key, own, |q|);
    assert own[..|q|] == own;
    forall dot ensures SumsTo(own, dot) <==> dot == Sum(own) {
      SumIs(own, dot);
    }
    forall terms | AreProducts(terms, q, e.key) ensures terms == own {
    }
    assert SumsTo(own, Sum(own));
  }

  /** The best score of a visible key. */
  ghost predicate IsBest(q: seq<real>, entries: seq<Entry>, scale: real, p: nat, m: real) {
    && (exists j :: 0 <= j < |entries| && entries[j].position <= p && IsScore(q, entries[j].key, scale, m))
    && forall j, score | 0 <= j < |entries| && entries[j].position <= p && IsScore(q, entries[j].key, scale, score) ::
         score <= m
  }

  /** The weights: for a visible key the exponential of its distance to the
      best, for any other nothing. */
  ghost predicate AreWeights(exp: real -> real, q: seq<real>, entries: seq<Entry>, scale: real, p: nat, m: real,
                             weights: seq<real>) {
    |weights| == |entries| && forall j, score | 0 <= j < |entries| && IsScore(q, entries[j].key, scale, score) ::
      weights[j] == if entries[j].position <= p then exp(score - m) else 0.0
  }

  function Masked(q: seq<real>, entries: seq<Entry>, scale: real, p: nat): (scores: seq<Option<real>>)
    requires Sized(entries, |q|)
    ensures Masks(scores, q, entries, scale, p)
  {
    seq(|entries|, j requires 0 <= j < |entries| =>
      if entries[j].position <= p then Some(Score(q, entries[j], scale)) else None)
  }

  lemma {:induction false} KeptHas(scores: seq<Option<real>>, x: real)
    ensures x in Kept(scores) <==> exists j :: 0 <= j < |scores| && scores[j] == Some(x)
  {
    if scores != [] {
      var n := |scores| - 1;
      KeptHas(scores[..n], x);
      assert forall j | 0 <= j < n :: scores[..n][j] == scores[j];
    }
  }

  lemma {:induction false} BestIs(q: seq<real>, entries: seq<Entry>, scale: real, p: nat, m: real)
    requires Sized(entries, |q|) && IsBest(q, entries, scale, p, m)
    ensures IsMaximum(Kept(Masked(q, entries, scale, p)), m)
  {
    hide IsScore, Score, Kept;
    var scores := Masked(q, entries, scale, p);
    forall j, v | 0 <= j < |entries| ensures IsScore(q, entries[j].key, scale, v) <==> v == Score(q, entries[j], scale) {
      ScoreFormula(q, entries[j], scale, v);
    }
    KeptHas(scores, m);
    var j :| 0 <= j < |entries| && entries[j].position <= p && IsScore(q, entries[j].key, scale, m);
    assert scores[j] == Some(m);
    assert m in Kept(scores);
    assert forall i | 0 <= i < |Kept(scores)| :: Kept(scores)[i] in Kept(scores);
    forall x | x in Kept(scores) ensures x <= m {
      KeptHas(scores, x);
      var i :| 0 <= i < |scores| && scores[i] == Some(x);
      assert IsScore(q, entries[i].key, scale, x);
    }
  }

  /** The weights of the visible keys have one total, with the others or without. */
  lemma {:induction false} SameTotal(exp: real -> real, scores: seq<Option<real>>, m: real, weights: seq<real>)
    requires |weights| == |scores|
    requires forall j | 0 <= j < |scores| :: weights[j] == if scores[j].Some? then exp(scores[j].value - m) else 0.0
    ensures Sum(weights) == Sum(Exponentials(exp, Kept(scores), m))
  {
    hide Sum, Exponentials;
    if scores == [] {
      NoExponentials(exp, m);
      assert weights == [] && Sum([]) == 0.0 by { SumNone(); }
    } else {
      var n := |scores| - 1;
      SameTotal(exp, scores[..n], m, weights[..n]);
      assert weights == weights[..n] + [weights[n]];
      SumPush(weights[..n], weights[n]);
      if scores[n].Some? {
        OneMoreExponential(exp, Kept(scores[..n]), scores[n].value, m);
      }
    }
  }

  lemma {:induction false} SumNone()
    ensures Sum([]) == 0.0
  {
  }

  lemma {:induction false} MixTimes(weights: seq<real>, entries: seq<Entry>, total: real, d: nat, terms: seq<real>)
    requires total != 0.0 && |weights| == |entries| == |terms|
    requires forall j | 0 <= j < |entries| :: d < |entries[j].value| && terms[j] == weights[j] * entries[j].value[d]
    ensures MixAll(weights, entries, total, d) * total == Sum(terms)
  {
    hide Weighted;
    if entries != [] {
      var n := |entries| - 1;
      MixTimes(weights[..n], entries[..n], total, d, terms[..n]);
      WeightedTimes(weights[n], total, entries[n].value[d]);
      SumOfTwo(MixAll(weights[..n], entries[..n], total, d), Weighted(weights[n], total, entries[n].value[d]), total);
    }
  }

  lemma {:induction false} WeightedTimes(w: real, total: real, v: real)
    requires total != 0.0
    ensures Weighted(w, total, v) * total == w * v
  {
    QuotientTimes(w, total);
    assert w / total * v * total == w / total * total * v;
  }

  lemma {:induction false} SumOfTwo(a: real, b: real, t: real)
    ensures (a + b) * t == a * t + b * t
  {
  }

  ghost predicate AreShares(terms: seq<real>, weights: seq<real>, entries: seq<Entry>, d: nat) {
    |terms| == |weights| == |entries|
    && forall j | 0 <= j < |entries| :: d < |entries[j].value| && terms[j] == weights[j] * entries[j].value[d]
  }

  /** Attention of one query over a list of entries: every component, times
      the total of the weights, is the sum of weight times value. */
  lemma {:induction false} AttendFormula(exp: real -> real, scale: real, q: seq<real>, entries: seq<Entry>, p: nat,
                                         m: real, weights: seq<real>, d: nat, terms: seq<real>)
    requires IsExp(exp) && Sized(entries, |q|) && IsBest(q, entries, scale, p, m)
    requires AreWeights(exp, q, entries, scale, p, m, weights) && d < |q| && AreShares(terms, weights, entries, d)
    ensures Sized(Visible(entries, p), |q|)
    ensures Attend(exp, scale, q, Visible(entries, p)).Some?
    ensures Attend(exp, scale, q, Visible(entries, p)).value[d] * Sum(weights) == Sum(terms)
  {
    hide Sum, Exponentials, Kept, Visible, Score, Scores, Mix, MixAll, IsMaximum, Maximum, Masks, Masked, IsBest,
         AreWeights, Attend;
    var scores, seen := Masked(q, entries, scale, p), Visible(entries, p);
    VisibleSized(entries, p, |q|);
    KeptIsVisible(scores, q, entries, scale, p);
    BestIs(q, entries, scale, p, m);
    WeightsAre(exp, q, entries, scale, p, m, weights);
    MaskedSize(q, entries, scale, p);
    SameTotal(exp, scores, m, weights);
    MaximumOfSome(Kept(scores), m);
    ExponentialsPositive(exp, Kept(scores), m);
    MixAllIsMix(exp, weights, scores, q, entries, scale, p, m, Sum(weights), d);
    MixTimes(weights, entries, Sum(weights), d, terms);
    AttendIs(exp, scale, q, seen, m, d);
  }

  lemma {:induction false} MaskedSize(q: seq<real>, entries: seq<Entry>, scale: real, p: nat)
    requires Sized(entries, |q|)
    ensures |Masked(q, entries, scale, p)| == |entries|
  {
  }

  lemma {:induction false} MaximumOfSome(s: seq<real>, m: real)
    requires IsMaximum(s, m)
    ensures s != []
  {
  }

  lemma {:induction false} AttendIs(exp: real -> real, scale: real, q: seq<real>, seen: seq<Entry>, m: real, d: nat)
    requires IsExp(exp) && Sized(seen, |q|) && d < |q| && IsMaximum(Scores(q, seen, scale), m)
    requires Sum(Exponentials(exp, Scores(q, seen, scale), m)) != 0.0
    ensures Attend(exp, scale, q, seen).Some?
    ensures Attend(exp, scale, q, seen).value[d]
         == Mix(exp, Scores(q, seen, scale), seen, m, Sum(Exponentials(exp, Scores(q, seen, scale), m)), d)
  {
    hide Sum, Exponentials, Mix, Score, Maximum;
    MaximumOfSome(Scores(q, seen, scale), m);
    MaximumIs(Scores(q, seen, scale), m);
  }

  lemma {:induction false} WeightsAre(exp: real -> real, q: seq<real>, entries: seq<Entry>, scale: real, p: nat, m: real,
                                      weights: seq<real>)
    requires Sized(entries, |q|) && AreWeights(exp, q, entries, scale, p, m, weights)
    ensures forall j | 0 <= j < |entries| ::
      var s := Masked(q, entries, scale, p)[j]; weights[j] == if s.Some? then exp(s.value - m) else 0.0
  {
    hide IsScore, Score;
    forall j | 0 <= j < |entries| ensures IsScore(q, entries[j].key, scale, Score(q, entries[j], scale)) {
      ScoreFormula(q, entries[j], scale, Score(q, entries[j], scale));
    }
  }

  /** Row i of a batch is the attention of its query over the entries of its
      key-value head, up to its token's position. */
  lemma {:induction false} RowFormula(exp: real -> real, scale: real, q: seq<real>, heads: nat, c: Cache, offset: nat,
                                      i: nat, g: nat, k: nat, entries: seq<Entry>, m: real, weights: seq<real>, d: nat,
                                      terms: seq<real>)
    requires IsExp(exp) && ValidHeads(heads, c) && |q| == c.dimension && d < c.dimension
    requires g * c.heads == heads && k < c.heads && k * g <= i % heads < (k + 1) * g
    requires AreEntries(entries, c, k) && IsBest(q, entries, scale, offset + i / heads, m)
    requires AreWeights(exp, q, entries, scale, offset + i / heads, m, weights) && AreShares(terms, weights, entries, d)
    ensures BatchRow(exp, scale, q, heads, c, offset, i).Some?
    ensures BatchRow(exp, scale, q, heads, c, offset, i).value[d] * Sum(weights) == Sum(terms)
  {
    hide AreShares, AreWeights, IsBest, Attend, Visible, Entries, Sum, AreEntries;
    RowOfHead(exp, scale, q, heads, c, offset, i, g, k, entries);
    AttendFormula(exp, scale, q, entries, offset + i / heads, m, weights, d, terms);
  }

  lemma {:induction false} RowOfHead(exp: real -> real, scale: real, q: seq<real>, heads: nat, c: Cache, offset: nat,
                                     i: nat, g: nat, k: nat, entries: seq<Entry>)
    requires IsExp(exp) && ValidHeads(heads, c) && |q| == c.dimension
    requires g * c.heads == heads && k < c.heads && k * g <= i % heads < (k + 1) * g && AreEntries(entries, c, k)
    ensures Sized(entries, |q|) && Sized(Visible(entries, offset + i / heads), |q|)
    ensures BatchRow(exp, scale, q, heads, c, offset, i) == Attend(exp, scale, q, Visible(entries, offset + i / heads))
  {
    SharedHead(heads, c.heads, g, k, i % heads);
    EntriesAre(c, k, entries);
    hide Attend, Visible, Entries, AreEntries;
    VisibleSized(entries, offset + i / heads, c.dimension);
  }

  /** There is no row exactly when no token of the cache is early enough. */
  lemma {:induction false} NoRow(exp: real -> real, scale: real, q: seq<real>, heads: nat, c: Cache, offset: nat, i: nat)
    requires IsExp(exp) && ValidHeads(heads, c) && |q| == c.dimension
    ensures BatchRow(exp, scale, q, heads, c, offset, i) == None <==>
      forall j | 0 <= j < |c.positions| :: c.positions[j] > offset + i / heads
  {
    hide Attend, Visible, Entries, IsExp, HeadRow;
    var k := HeadOf(exp, scale, q, heads, c, i % heads, offset + i / heads);
    hide ValidHeads, BatchRow;
    NoneEarly(c, k, offset + i / heads);
    AttendsSomething(exp, scale, q, Visible(Entries(c, k), offset + i / heads));
  }

  /** Some key-value head's entries are what a head attends to. */
  lemma {:induction false} HeadOf(exp: real -> real, scale: real, q: seq<real>, heads: nat, c: Cache, head: nat, p: nat)
    returns (k: nat)
    requires IsExp(exp) && ValidHeads(heads, c) && |q| == c.dimension && head < heads
    ensures c.Valid() && k < c.heads && Sized(Visible(Entries(c, k), p), |q|)
    ensures HeadRow(exp, scale, q, heads, c, head, p) == Attend(exp, scale, q, Visible(Entries(c, k), p))
  {
    hide Attend, Visible, Entries, IsExp;
    KeyHeadBound(heads, c.heads, head);
    k := head / (heads / c.heads);
    VisibleSized(Entries(c, k), p, c.dimension);
  }

  lemma {:induction false} NoneEarly(c: Cache, k: nat, p: nat)
    requires c.Valid() && k < c.heads
    ensures Visible(Entries(c, k), p) == [] <==> forall j | 0 <= j < |c.positions| :: c.positions[j] > p
  {
    SeesNothing(Entries(c, k), p);
    forall j | 0 <= j < |c.positions| ensures Entries(c, k)[j].position == c.positions[j] {
      EntryIs(c, k, j);
    }
    hide Visible, Entries;
  }

  lemma {:induction false} AttendsSomething(exp: real -> real, scale: real, q: seq<real>, seen: seq<Entry>)
    requires IsExp(exp) && Sized(seen, |q|)
    ensures Attend(exp, scale, q, seen) == None <==> seen == []
  {
  }

  lemma {:induction false} SeesNothing(entries: seq<Entry>, p: nat)
    ensures Visible(entries, p) == [] <==> forall j | 0 <= j < |entries| :: entries[j].position > p
  {
    if entries != [] {
      var n := |entries| - 1;
      SeesNothing(entries[..n], p);
      assert forall j | 0 <= j < n :: entries[..n][j] == entries[j];
    }
  }

  /** A query head reads its own key-value head only: two caches with the same
      entries for it give the same row. */
  lemma {:induction false} OnlyOwnHead(exp: real -> real, scale: real, q: seq<real>, heads: nat, c: Cache, other: Cache,
                                       offset: nat, i: nat, g: nat, k: nat, entries: seq<Entry>)
    requires IsExp(exp) && ValidHeads(heads, c) && ValidHeads(heads, other) && |q| == c.dimension == other.dimension
    requires c.heads == other.heads && g * c.heads == heads && k < c.heads && k * g <= i % heads < (k + 1) * g
    requires AreEntries(entries, c, k) && AreEntries(entries, other, k)
    ensures BatchRow(exp, scale, q, heads, c, offset, i) == BatchRow(exp, scale, q, heads, other, offset, i)
  {
    hide AreEntries, BatchRow;
    RowOfHead(exp, scale, q, heads, c, offset, i, g, k, entries);
    RowOfHead(exp, scale, q, heads, other, offset, i, g, k, entries);
  }
}

/** The sampling distribution, with every setting of the configuration written out. */
module SamplingFormulas {
  import opened Matrices
  import opened Routing
  import opened Spreading
  import opened LogitsProcessor
  import opened RoutingFormulas
  import Sampler

  /** All tokens, the best logit first, equal ones by index. */
  ghost predicate BestFirst(logits: seq<real>, order: seq<nat>) {
    && |order| == |logits| && (forall r | 0 <= r < |order| :: order[r] < |logits|)
    && forall r, q | 0 <= r < q < |order| ::
         logits[order[r]] > logits[order[q]] || (logits[order[r]] == logits[order[q]] && order[r] < order[q])
  }

  lemma {:induction false} BestFirstIs(logits: seq<real>, order: seq<nat>)
    ensures BestFirst(logits, order) <==> order == Order(logits)
  {
    TopKFirst(logits, Order(logits));
    if BestFirst(logits, order) {
      assert Distinct(order, |logits|);
      AllPlaced(order, |logits|);
      TopKUnique(logits, |logits|, order, Order(logits));
    }
  }

  lemma {:induction false} TopKFirst(logits: seq<real>, order: seq<nat>)
    requires IsTopK(logits, |logits|, order)
    ensures BestFirst(logits, order)
  {
    assert forall r, q | 0 <= r < q < |order| :: Ranks(logits, order[r], order[q]);
  }

  /** The weights of the retained tokens by rank: stochastic sampling divides
      the logits by the temperature, greedy does not, and a top k of zero
      retains them all. */
  ghost predicate AreRetained(exp: real -> real, logits: seq<real>, config: SamplingConfig, order: seq<nat>,
                              w: seq<real>)
    requires |order| == |logits| && forall r | 0 <= r < |order| :: order[r] < |logits|
  {
    var t := if config.strategy == Stochastic then config.temperature else 1.0;
    && |w| == (if config.topK == 0 then |logits| else config.topK) && 0 < |w| <= |order| && t > 0.0
    && forall r | 0 <= r < |w| :: w[r] == exp(logits[order[r]] / t - logits[order[0]] / t)
  }

  predicate InBounds(config: SamplingConfig, vocabulary: nat) {
    vocabulary > 0 && config.temperature > 0.0 && config.topK <= vocabulary && 0.0 < config.topP <= 1.0
  }

  lemma {:induction false} BoundsAre(config: SamplingConfig, vocabulary: nat)
    ensures config.Valid(vocabulary) <==> InBounds(config, vocabulary)
  {
  }

  /** The distribution: it sums to one; the tokens with a chance are the
      shortest prefix that holds the share topP of the retained weight; and
      their chances are in the ratio of their weights. */
  lemma {:induction false} DistributionFormula(exp: real -> real, logits: seq<real>, config: SamplingConfig,
                                               order: seq<nat>, w: seq<real>)
    returns (keep: nat)
    requires IsExp(exp) && InBounds(config, |logits|) && BestFirst(logits, order)
    requires AreRetained(exp, logits, config, order, w)
    ensures config.Valid(|logits|) && 1 <= keep <= |w|
    ensures Sum(w[..keep]) >= config.topP * Sum(w) && forall j | 0 <= j < keep :: Sum(w[..j]) < config.topP * Sum(w)
    ensures var p := Distribution(exp, logits, config);
      && Sum(p) == 1.0 && (forall i | 0 <= i < |p| :: p[i] >= 0.0 && (p[i] > 0.0 <==> i in order[..keep]))
      && forall r, q | 0 <= r < keep && 0 <= q < keep :: p[order[r]] * w[q] == p[order[q]] * w[r]
  {
    hide Sum, Distribution, IsTopK, Distinct, Weights, AreRetained, InRatio, Order, BestFirst;
    BestFirstIs(logits, order);
    OrderInside(logits, order);
    RetainedAre(exp, logits, config, order, w);
    keep := DistributionMeans(exp, logits, config);
    PrefixRatios(Distribution(exp, logits, config), order, w, keep);
  }

  lemma {:induction false} RetainedAre(exp: real -> real, logits: seq<real>, config: SamplingConfig, order: seq<nat>,
                                       w: seq<real>)
    requires |order| == |logits| && forall r | 0 <= r < |order| :: order[r] < |logits|
    requires config.Valid(|logits|)
    ensures AreRetained(exp, logits, config, order, w) <==>
      w == Weights(exp, logits, order, config.Retained(|logits|), config.Scale())
  {
    var own := Weights(exp, logits, order, config.Retained(|logits|), config.Scale());
    forall r | 0 <= r < |own|
      ensures own[r] == exp(logits[order[r]] / config.Scale() - logits[order[0]] / config.Scale())
    {
      WeightAt(exp, logits, order, config.Retained(|logits|), config.Scale(), r);
    }
    hide Weights;
  }

  lemma {:induction false} PrefixRatios(p: seq<real>, order: seq<nat>, w: seq<real>, keep: nat)
    requires keep <= |w| <= |order| == |p| && Distinct(order, |p|) && InRatio(p, order, w[..keep])
    ensures forall r, q | 0 <= r < keep && 0 <= q < keep :: p[order[r]] * w[q] == p[order[q]] * w[r]
  {
    assert forall r | 0 <= r < keep :: w[..keep][r] == w[r];
  }

  /** So the chances of two tokens that have one differ by the temperature-scaled
      distance of their logits. */
  lemma {:induction false} ChancesByTemperature(exp: real -> real, logits: seq<real>, config: SamplingConfig, t: real,
                                                best: real, a: nat, b: nat)
    requires IsExp(exp) && config.Valid(|logits|) && IsMaximum(logits, best) && a < |logits| && b < |logits|
    requires t == if config.strategy == Stochastic then config.temperature else 1.0
    requires Distribution(exp, logits, config)[a] > 0.0 && Distribution(exp, logits, config)[b] > 0.0
    ensures Distribution(exp, logits, config)[a] * exp(logits[b] / t - best / t)
         == Distribution(exp, logits, config)[b] * exp(logits[a] / t - best / t)
  {
    hide Sum, Distribution, IsTopK, Distinct, Weights, Order, IsMaximum, AreRetained, BestFirst;
    var order := Order(logits);
    BestFirstIs(logits, order);
    OrderInside(logits, order);
    var w := Weights(exp, logits, order, config.Retained(|logits|), config.Scale());
    RetainedAre(exp, logits, config, order, w);
    BestIsFirst(logits, order, best);
    var r, q := RanksOf(exp, logits, config, a, b);
    WeightAt(exp, logits, order, config.Retained(|logits|), config.Scale(), r);
    WeightAt(exp, logits, order, config.Retained(|logits|), config.Scale(), q);
  }

  lemma {:induction false} RanksOf(exp: real -> real, logits: seq<real>, config: SamplingConfig, a: nat, b: nat)
    returns (r: nat, q: nat)
    requires IsExp(exp) && config.Valid(|logits|) && a < |logits| && b < |logits|
    requires Distribution(exp, logits, config)[a] > 0.0 && Distribution(exp, logits, config)[b] > 0.0
    ensures r < config.Retained(|logits|) <= |logits| && q < config.Retained(|logits|)
    ensures Order(logits)[r] == a && Order(logits)[q] == b
    ensures var p := Distribution(exp, logits, config);
      var w := Weights(exp, logits, Order(logits), config.Retained(|logits|), config.Scale());
      p[a] * w[q] == p[b] * w[r]
  {
    hide Sum, Distribution, Order, Weights, Goal, InRatio;
    var p, order := Distribution(exp, logits, config), Order(logits);
    var w := Weights(exp, logits, order, config.Retained(|logits|), config.Scale());
    var keep := DistributionMeans(exp, logits, config);
    r := RankOf(order, keep, a);
    q := RankOf(order, keep, b);
    RatioOf(p, order, w, keep, r, q);
  }

  lemma {:induction false} RatioOf(p: seq<real>, order: seq<nat>, w: seq<real>, keep: nat, r: nat, q: nat)
    requires keep <= |w| <= |order| == |p| && Distinct(order, |p|) && InRatio(p, order, w[..keep])
    requires r < keep && q < keep
    ensures p[order[r]] * w[q] == p[order[q]] * w[r]
  {
    PrefixRatios(p, order, w, keep);
    hide InRatio;
  }

  lemma {:induction false} OrderInside(logits: seq<real>, order: seq<nat>)
    requires BestFirst(logits, order)
    ensures |order| == |logits| && (forall r | 0 <= r < |order| :: order[r] < |logits|) && Distinct(order, |logits|)
  {
  }

  lemma {:induction false} RankOf(order: seq<nat>, keep: nat, i: nat) returns (r: nat)
    requires keep <= |order| && i in order[..keep]
    ensures r < keep && order[r] == i
  {
    r :| 0 <= r < keep && order[..keep][r] == i;
  }

  lemma {:induction false} BestIsFirst(logits: seq<real>, order: seq<nat>, best: real)
    requires BestFirst(logits, order) && IsMaximum(logits, best)
    ensures logits[order[0]] == best
  {
    var i :| 0 <= i < |logits| && logits[i] == best;
    BestFirstIs(logits, order);
    OrderDistinct(logits, order);
    assert order[..|order|] == order;
    var r := RankOf(order, |order|, i);
  }

  /** A draw is the top 53 of the generator's 64 bits, over two to the 53rd. */
  lemma {:induction false} DrawFormula(bits: nat, high: nat, low: nat)
    requires bits == 2048 * high + low && low < 2048 && high < 0x20_0000_0000_0000
    ensures bits < 0x1_0000_0000_0000_0000 && Sampler.Draw(bits) * 9007199254740992.0 == high as real
  {
    assert bits / 2048 == high;
    QuotientTimes(high as real, 9007199254740992.0);
  }

  /** The first of the best logits. */
  ghost predicate IsFirstBest(logits: seq<real>, token: nat) {
    token < |logits| && forall i | 0 <= i < |logits| ::
      logits[i] <= logits[token] && (i < token ==> logits[i] < logits[token])
  }

  lemma {:induction false} FirstBestLeads(logits: seq<real>, order: seq<nat>, token: nat)
    requires BestFirst(logits, order) && logits != []
    ensures IsFirstBest(logits, token) <==> token == order[0]
  {
    BestFirstIs(logits, order);
    OrderDistinct(logits, order);
    hide Order, IsTopK, Distinct;
    assert order[..|order|] == order;
    var first := order[0];
    forall i | 0 <= i < |logits|
      ensures logits[i] < logits[first] || (logits[i] == logits[first] && first <= i)
    {
      var r := RankOf(order, |order|, i);
    }
    hide BestFirst;
    assert IsFirstBest(logits, first);
    if IsFirstBest(logits, token) {
      FirstBestUnique(logits, first, token);
    }
  }

  lemma {:induction false} FirstBestUnique(logits: seq<real>, a: nat, b: nat)
    requires IsFirstBest(logits, a) && IsFirstBest(logits, b)
    ensures a == b
  {
    assert logits[a] == logits[b];
  }

  /** The token of a draw: greedily the first of the best logits, otherwise the
      one whose stretch of the running total the draw falls into. */
  lemma {:induction false} SampleFormula(exp: real -> real, logits: seq<real>, config: SamplingConfig, draw: real,
                                         token: nat)
    requires IsExp(exp) && config.Valid(|logits|)
    ensures config.strategy == Greedy ==>
      (Sampler.IsSample(exp, logits, config, draw, token) <==> IsFirstBest(logits, token))
    ensures config.strategy == Stochastic ==>
      (Sampler.IsSample(exp, logits, config, draw, token) <==>
        token < |logits| && var p := Distribution(exp, logits, config);
          Sum(p[..token]) <= draw < Sum(p[..token]) + p[token])
  {
    hide Sum, Distribution;
    var order := Order(logits);
    BestFirstIs(logits, order);
    if config.strategy == Greedy {
      FirstBestLeads(logits, order, token);
      hide Order, BestFirst;
      assert order[..1] == [order[0]];
    } else if token < |logits| {
      var p := Distribution(exp, logits, config);
      SumPush(p[..token], p[token]);
      assert p[..token + 1] == p[..token] + [p[token]];
    }
  }
}
