/**
Running a batch expert by expert and adding the weighted rows back
(the host path of MoERuntime::executeBatch), and the oracle's references for
one expert and for the combination (CorrectnessOracle::expertMlpTrace,
CorrectnessOracle::combineExperts).
 */
module Experts {
  import opened Wrappers
  import opened Matrices

  /** Gate and up map a row of the input to the intermediate width, down maps back. */
  datatype Weights = Weights(gate: seq<real>, up: seq<real>, down: seq<real>, intermediate: nat, output: nat)

  predicate Fits(w: Weights, inputWidth: nat, outputWidth: nat) {
    && |w.gate| == |w.up| == inputWidth * w.intermediate
    && w.output == outputWidth && |w.down| == w.intermediate * outputWidth
  }

  /** Silu of the gate projection, times the up projection. */
  function GatedEntry(exp: real -> real, gate: real, up: real): real
    requires IsExp(exp)
  {
    var silu := gate / (1.0 + exp(-gate));
    silu * up
  }

  function Gated(exp: real -> real, w: Weights, x: seq<real>): (r: seq<real>)
    requires IsExp(exp) && |w.gate| == |w.up| == |x| * w.intermediate
    ensures |r| == w.intermediate
  {
    var gate, up := Product(x, w.gate, w.intermediate), Product(x, w.up, w.intermediate);
    seq(w.intermediate, i requires 0 <= i < w.intermediate => GatedEntry(exp, gate[i], up[i]))
  }

  /** What one expert makes of one row, by itself. */
  function Mlp(exp: real -> real, w: Weights, x: seq<real>, outputWidth: nat): (r: seq<real>)
    requires IsExp(exp) && Fits(w, |x|, outputWidth)
    ensures |r| == outputWidth
  {
    Product(Gated(exp, w, x), w.down, outputWidth)
  }

  /** A buffer holds these rows, one after another. */
  ghost predicate IsRows(values: seq<real>, width: nat, rows: seq<seq<real>>) {
    && |values| == |rows| * width
    && forall r | 0 <= r < |rows| :: Row(values, |rows|, width, r) == rows[r]
  }

  lemma {:induction false} RowAppend(values: seq<real>, rows: nat, width: nat, row: seq<real>, r: nat)
    requires |values| == rows * width && |row| == width && r <= rows
    ensures |values + row| == (rows + 1) * width
    ensures Row(values + row, rows + 1, width, r) == if r < rows then Row(values, rows, width, r) else row
  {
    forall h | 0 <= h < width
      ensures Cell(values + row, rows + 1, width, r, h) == if r < rows then Cell(values, rows, width, r, h) else row[h]
    {
      CellBound(rows + 1, width, r, h);
      if r < rows {
        CellBound(rows, width, r, h);
      }
    }
  }

  lemma {:induction false} IsRowsPush(values: seq<real>, width: nat, rows: seq<seq<real>>, row: seq<real>)
    requires IsRows(values, width, rows) && |row| == width
    ensures IsRows(values + row, width, rows + [row])
  {
    forall r | 0 <= r < |rows| + 1
      ensures |values + row| == (|rows| + 1) * width
      ensures Row(values + row, |rows| + 1, width, r) == (rows + [row])[r]
    {
      RowAppend(values, |rows|, width, row, r);
    }
  }

  /** One row through an expert, by the loops of the source. */
  method MlpRow(exp: real -> real, w: Weights, x: seq<real>, outputWidth: nat) returns (output: seq<real>)
    requires IsExp(exp) && Fits(w, |x|, outputWidth)
    ensures output == Mlp(exp, w, x, outputWidth)
  {
    var gated := GatedRow(exp, w, x);
    output := [];
    for h := 0 to outputWidth
      invariant output == Mlp(exp, w, x, outputWidth)[..h]
    {
      var value := DotColumn(gated, w.down, outputWidth, h);
      output := output + [value];
    }
  }

  method GatedRow(exp: real -> real, w: Weights, x: seq<real>) returns (gated: seq<real>)
    requires IsExp(exp) && |w.gate| == |w.up| == |x| * w.intermediate
    ensures gated == Gated(exp, w, x)
  {
    hide Product, GatedEntry;
    gated := [];
    for i := 0 to w.intermediate
      invariant gated == Gated(exp, w, x)[..i]
    {
      var gateValue := DotColumn(x, w.gate, w.intermediate, i);
      var upValue := DotColumn(x, w.up, w.intermediate, i);
      gated := gated + [GatedEntry(exp, gateValue, upValue)];
    }
  }

  /** Every row of a batch by itself. */
  function MlpRows(exp: real -> real, w: Weights, inputs: seq<seq<real>>, inputWidth: nat, outputWidth: nat)
    : (r: seq<seq<real>>)
    requires IsExp(exp) && Fits(w, inputWidth, outputWidth)
    requires forall t | 0 <= t < |inputs| :: |inputs[t]| == inputWidth
    ensures |r| == |inputs|
  {
    seq(|inputs|, t requires 0 <= t < |inputs| => Mlp(exp, w, inputs[t], outputWidth))
  }

  /** An expert over a buffer of rows: it never mixes rows. */
  method RunExpert(exp: real -> real, input: seq<real>, w: Weights, ghost inputs: seq<seq<real>>, tokens: nat,
                   inputWidth: nat, outputWidth: nat)
    returns (output: seq<real>)
    requires IsExp(exp) && Fits(w, inputWidth, outputWidth)
    requires IsRows(input, inputWidth, inputs) && tokens == |inputs|
    ensures IsRows(output, outputWidth, MlpRows(exp, w, inputs, inputWidth, outputWidth))
  {
    output := [];
    ghost var all := MlpRows(exp, w, inputs, inputWidth, outputWidth);
    for t := 0 to tokens
      invariant IsRows(output, outputWidth, all[..t])
    {
      var row := MlpRow(exp, w, Row(input, tokens, inputWidth, t), outputWidth);
      IsRowsPush(output, outputWidth, all[..t], row);
      assert all[..t] + [row] == all[..t + 1];
      output := output + row;
    }
    assert all[..tokens] == all;
  }

  datatype OracleError = WrongDimensions | InvalidOutput | InvalidAssignment

  /** The oracle's expert, with its dimension checks. */
  method ExpertMlp(exp: real -> real, input: seq<real>, tokens: nat, hiddenSize: nat, w: Weights)
    returns (r: Result<seq<real>, OracleError>)
    requires IsExp(exp)
    ensures r.Ok? <==> tokens > 0 && hiddenSize > 0 && w.intermediate > 0
                       && |input| == tokens * hiddenSize && Fits(w, hiddenSize, hiddenSize)
    ensures r.Ok? ==> |r.value| == tokens * hiddenSize && forall t | 0 <= t < tokens ::
      Row(r.value, tokens, hiddenSize, t) == Mlp(exp, w, Row(input, tokens, hiddenSize, t), hiddenSize)
  {
    if tokens == 0 || hiddenSize == 0 || w.intermediate == 0 || |input| != tokens * hiddenSize
       || |w.gate| != hiddenSize * w.intermediate || |w.up| != hiddenSize * w.intermediate
       || w.output != hiddenSize || |w.down| != w.intermediate * hiddenSize {
      return Err(WrongDimensions);
    }
    ghost var inputs := seq(tokens, t requires 0 <= t < tokens => Row(input, tokens, hiddenSize, t));
    var output := RunExpert(exp, input, w, inputs, tokens, hiddenSize, hiddenSize);
    ghost var outputs := MlpRows(exp, w, inputs, hiddenSize, hiddenSize);
    assert forall t | 0 <= t < tokens :: Row(output, tokens, hiddenSize, t) == outputs[t];
    r := Ok(output);
  }
}

module Combination {
  import opened Wrappers
  import opened Matrices
  import opened Routing
  import opened Grouping
  import opened Experts

  // ---- what a token is owed ----

  /** One output component of one expert for one token: (expert, token, component). */
  type Output = (ExpertId, nat, nat) -> real

  /** The sum over a token's selected experts of score times expert output. */
  function Owed(out: Output, d: Decision, token: nat, h: nat, n: nat): real
    requires n <= |d.ids| && n <= |d.scores|
  {
    if n == 0 then 0.0 else Owed(out, d, token, h, n - 1) + d.scores[n - 1] * out(d.ids[n - 1], token, h)
  }

  function Share(out: Output, a: Assignment, token: nat, h: nat): real {
    if a.token == token then a.score * out(a.expert, token, h) else 0.0
  }

  /** What a list of assignments adds to one token's component. */
  function Total(out: Output, rows: seq<Assignment>, token: nat, h: nat): real {
    if rows == [] then 0.0 else Total(out, rows[..|rows| - 1], token, h) + Share(out, rows[|rows| - 1], token, h)
  }

  lemma {:induction false} TotalAppend(out: Output, s: seq<Assignment>, t: seq<Assignment>, token: nat, h: nat)
    ensures Total(out, s + t, token, h) == Total(out, s, token, h) + Total(out, t, token, h)
  {
    hide Share;
    if t == [] {
      assert s + t == s;
    } else {
      assert (s + t)[..|s + t| - 1] == s + t[..|t| - 1];
      TotalAppend(out, s, t[..|t| - 1], token, h);
    }
  }

  /** The order of the assignments does not matter. */
  lemma {:induction false} TotalPermuted(out: Output, s: seq<Assignment>, t: seq<Assignment>, token: nat, h: nat)
    requires multiset(s) == multiset(t)
    ensures Total(out, s, token, h) == Total(out, t, token, h)
  {
    hide Share;
    if s == [] {
      assert |multiset(t)| == 0;
    } else {
      var last := s[|s| - 1];
      assert last in multiset(t);
      var i :| 0 <= i < |t| && t[i] == last;
      var rest := t[..i] + t[i + 1..];
      assert t == t[..i] + [last] + t[i + 1..];
      assert s == s[..|s| - 1] + [last];
      assert multiset(t) == multiset(rest) + multiset{last};
      assert multiset(s) == multiset(s[..|s| - 1]) + multiset{last};
      assert multiset(s[..|s| - 1]) == multiset(s) - multiset{last};
      assert multiset(rest) == multiset(t) - multiset{last};
      TotalPermuted(out, s[..|s| - 1], rest, token, h);
      TotalAppend(out, t[..i], t[i + 1..], token, h);
      TotalAppend(out, t[..i] + [last], t[i + 1..], token, h);
      TotalAppend(out, t[..i], [last], token, h);
    }
  }

  lemma {:induction false} OwnTotal(out: Output, d: Decision, token: nat, h: nat, n: nat)
    requires |d.ids| == |d.scores| && n <= |d.ids|
    ensures Total(out, OfToken(d, token)[..n], token, h) == Owed(out, d, token, h, n)
  {
    if n > 0 {
      OwnTotal(out, d, token, h, n - 1);
      assert OfToken(d, token)[..n][..n - 1] == OfToken(d, token)[..n - 1];
    }
  }

  lemma {:induction false} ForeignTotal(out: Output, rows: seq<Assignment>, token: nat, h: nat)
    requires forall i | 0 <= i < |rows| :: rows[i].token != token
    ensures Total(out, rows, token, h) == 0.0
  {
    if rows != [] {
      ForeignTotal(out, rows[..|rows| - 1], token, h);
    }
  }

  lemma {:induction false} FlatTotal(out: Output, ds: seq<Decision>, token: nat, h: nat)
    requires Even(ds)
    ensures Total(out, Flatten(ds), token, h)
         == if token < |ds| then Owed(out, ds[token], token, h, |ds[token].ids|) else 0.0
  {
    hide Share, Owed;
    if ds != [] {
      var n := |ds| - 1;
      FlatTotal(out, ds[..n], token, h);
      var own := OfToken(ds[n], n);
      TotalAppend(out, Flatten(ds[..n]), own, token, h);
      if token == n {
        OwnTotal(out, ds[n], n, h, |own|);
        assert own[..|own|] == own;
      } else {
        ForeignTotal(out, own, token, h);
      }
    }
  }

  /** Grouping keeps the meaning: whatever the order of the groups, a token
      gets exactly the sum over its own selected experts. */
  lemma {:induction false} GroupingKeepsMeaning(out: Output, ds: seq<Decision>, groups: seq<Group>, token: nat, h: nat)
    requires Even(ds) && Partitions(Flatten(ds), groups) && token < |ds|
    ensures Total(out, AllRows(groups), token, h) == Owed(out, ds[token], token, h, |ds[token].ids|)
  {
    GroupsHoldEachOnce(Flatten(ds), groups);
    TotalPermuted(out, AllRows(groups), Flatten(ds), token, h);
    FlatTotal(out, ds, token, h);
  }

  // ---- scatter-add ----

  /** What the first n rows of a group add to a token, f giving each row's value. */
  function Contribution(g: Group, token: nat, f: nat -> real, n: nat): real
    requires n <= |g.tokens| == |g.scores|
  {
    if n == 0 then 0.0
    else Contribution(g, token, f, n - 1) + if g.tokens[n - 1] == token then g.scores[n - 1] * f(n - 1) else 0.0
  }

  /** The component h of each row of a buffer. */
  function Component(values: seq<real>, rows: nat, width: nat, h: nat): nat -> real
    requires |values| == rows * width
  {
    (r: nat) => if r < rows && h < width then Cell(values, rows, width, r, h) else 0.0
  }

  ghost predicate ScatterAdded(now: seq<real>, before: seq<real>, tokenCount: nat, width: nat, g: Group,
                               values: seq<real>, n: nat)
    requires n <= |g.tokens| == |g.scores| && |values| == |g.tokens| * width
  {
    && |now| == |before| == tokenCount * width
    && forall t, h | 0 <= t < tokenCount && 0 <= h < width ::
         Cell(now, tokenCount, width, t, h)
         == Cell(before, tokenCount, width, t, h) + Contribution(g, t, Component(values, |g.tokens|, width, h), n)
  }

  /** One row, weighted, added in place at its token. */
  method AddRow(combined: array<real>, base: nat, weight: real, row: seq<real>)
    requires base + |row| <= combined.Length
    modifies combined
    ensures RowAdded(combined[..], old(combined[..]), base, weight, row)
  {
    for h := 0 to |row|
      invariant forall i | 0 <= i < combined.Length ::
        combined[i] == old(combined[i]) + if base <= i < base + h then weight * row[i - base] else 0.0
    {
      combined[base + h] := combined[base + h] + weight * row[h];
    }
  }

  predicate RowAdded(now: seq<real>, before: seq<real>, base: nat, weight: real, row: seq<real>) {
    && |now| == |before|
    && forall i | 0 <= i < |now| ::
         now[i] == before[i] + if base <= i < base + |row| then weight * row[i - base] else 0.0
  }

  lemma {:induction false} RowAddedCell(now: seq<real>, before: seq<real>, tokenCount: nat, width: nat, token: nat,
                                        weight: real, row: seq<real>, t: nat, h: nat)
    requires |before| == tokenCount * width && |row| == width && token < tokenCount
    requires t < tokenCount && h < width
    requires RowAdded(now, before, token * width, weight, row)
    ensures Cell(now, tokenCount, width, t, h)
         == Cell(before, tokenCount, width, t, h) + if t == token then weight * row[h] else 0.0
  {
    CellBound(tokenCount, width, t, h);
    if token * width <= t * width + h < token * width + width {
      CellsDiffer(width, t, h, token, t * width + h - token * width);
    }
  }

  lemma {:induction false} ScatterStep(now: seq<real>, middle: seq<real>, before: seq<real>, tokenCount: nat,
                                       width: nat, g: Group, values: seq<real>, n: nat)
    requires n < |g.tokens| == |g.scores| && |values| == |g.tokens| * width && g.tokens[n] < tokenCount
    requires ScatterAdded(middle, before, tokenCount, width, g, values, n)
    requires RowAdded(now, middle, g.tokens[n] * width, g.scores[n], Row(values, |g.tokens|, width, n))
    ensures ScatterAdded(now, before, tokenCount, width, g, values, n + 1)
  {
    hide RowAdded, Cell;
    assert |now| == |middle| by { RowAddedLength(now, middle, g.tokens[n] * width, g.scores[n], Row(values, |g.tokens|, width, n)); }
    forall t, h | 0 <= t < tokenCount && 0 <= h < width
      ensures Cell(now, tokenCount, width, t, h)
           == Cell(before, tokenCount, width, t, h)
              + Contribution(g, t, Component(values, |g.tokens|, width, h), n + 1)
    {
      RowAddedCell(now, middle, tokenCount, width, g.tokens[n], g.scores[n], Row(values, |g.tokens|, width, n), t, h);
    }
  }

  lemma {:induction false} RowAddedLength(now: seq<real>, before: seq<real>, base: nat, weight: real, row: seq<real>)
    requires RowAdded(now, before, base, weight, row)
    ensures |now| == |before|
  {
  }

  /** The source's nested loops over a group's rows and their components. */
  method ScatterAdd(combined: array<real>, tokenCount: nat, width: nat, g: Group, values: seq<real>)
    requires combined.Length == tokenCount * width && |g.tokens| == |g.scores| && |values| == |g.tokens| * width
    requires forall r | 0 <= r < |g.tokens| :: g.tokens[r] < tokenCount
    modifies combined
    ensures ScatterAdded(combined[..], old(combined[..]), tokenCount, width, g, values, |g.tokens|)
  {
    ghost var before := combined[..];
    for r := 0 to |g.tokens|
      invariant ScatterAdded(combined[..], before, tokenCount, width, g, values, r)
    {
      hide ScatterAdded, RowAdded;
      ghost var middle := combined[..];
      RowBound(tokenCount, width, g.tokens[r]);
      AddRow(combined, g.tokens[r] * width, g.scores[r], Row(values, |g.tokens|, width, r));
      ScatterStep(combined[..], middle, before, tokenCount, width, g, values, r);
    }
  }

  // ---- the oracle's combination ----

  datatype Routed = Routed(group: Group, values: seq<real>)

  /** What the oracle demands of one expert's rows. */
  predicate ValidRouted(o: Routed, tokenCount: nat, width: nat) {
    && o.group.tokens != [] && |o.group.tokens| == |o.group.scores|
    && |o.values| == |o.group.tokens| * width
    && forall r | 0 <= r < |o.group.tokens| :: o.group.tokens[r] < tokenCount
  }

  /** The contributions of all experts to one component. */
  function Combined(outputs: seq<Routed>, tokenCount: nat, width: nat, token: nat, h: nat): real
    requires forall k | 0 <= k < |outputs| :: ValidRouted(outputs[k], tokenCount, width)
  {
    if outputs == [] then 0.0
    else
      var last := outputs[|outputs| - 1];
      assert ValidRouted(last, tokenCount, width);
      Combined(outputs[..|outputs| - 1], tokenCount, width, token, h)
        + Contribution(last.group, token, Component(last.values, |last.group.tokens|, width, h), |last.group.tokens|)
  }

  function One(row: nat): real {
    1.0
  }

  function WeightOf(outputs: seq<Routed>, tokenCount: nat, width: nat, token: nat): real
    requires forall k | 0 <= k < |outputs| :: ValidRouted(outputs[k], tokenCount, width)
  {
    if outputs == [] then 0.0
    else
      var last := outputs[|outputs| - 1];
      assert ValidRouted(last, tokenCount, width);
      WeightOf(outputs[..|outputs| - 1], tokenCount, width, token)
        + Contribution(last.group, token, One, |last.group.tokens|)
  }

  /** The combination holds every component of the first k experts. */
  ghost predicate CombinedSoFar(values: seq<real>, outputs: seq<Routed>, tokenCount: nat, width: nat)
    requires forall k | 0 <= k < |outputs| :: ValidRouted(outputs[k], tokenCount, width)
  {
    && |values| == tokenCount * width
    && forall t, h | 0 <= t < tokenCount && 0 <= h < width ::
         Cell(values, tokenCount, width, t, h) == Combined(outputs, tokenCount, width, t, h)
  }

  lemma {:induction false} CombinedPush(now: seq<real>, before: seq<real>, outputs: seq<Routed>, o: Routed,
                                        tokenCount: nat, width: nat)
    requires forall k | 0 <= k < |outputs| :: ValidRouted(outputs[k], tokenCount, width)
    requires ValidRouted(o, tokenCount, width)
    requires CombinedSoFar(before, outputs, tokenCount, width)
    requires ScatterAdded(now, before, tokenCount, width, o.group, o.values, |o.group.tokens|)
    ensures CombinedSoFar(now, outputs + [o], tokenCount, width)
  {
    hide Cell, Contribution, Component;
    assert (outputs + [o])[..|outputs|] == outputs;
  }

  method AddWeights(sums: array<real>, g: Group)
    requires |g.tokens| == |g.scores| && forall r | 0 <= r < |g.tokens| :: g.tokens[r] < sums.Length
    modifies sums
    ensures forall t | 0 <= t < sums.Length :: sums[t] == old(sums[t]) + Contribution(g, t, One, |g.tokens|)
  {
    for r := 0 to |g.tokens|
      invariant forall t | 0 <= t < sums.Length :: sums[t] == old(sums[t]) + Contribution(g, t, One, r)
    {
      sums[g.tokens[r]] := sums[g.tokens[r]] + g.scores[r];
    }
  }

  /** The oracle's combination, with its checks. */
  method CombineExperts(tokenCount: nat, width: nat, outputs: seq<Routed>)
    returns (r: Result<(seq<real>, seq<real>), OracleError>)
    ensures r.Ok? <==> tokenCount > 0 && width > 0 && outputs != []
                       && forall k | 0 <= k < |outputs| :: ValidRouted(outputs[k], tokenCount, width)
    ensures r.Ok? ==>
      && CombinedSoFar(r.value.0, outputs, tokenCount, width)
      && |r.value.1| == tokenCount
      && forall t | 0 <= t < tokenCount :: r.value.1[t] == WeightOf(outputs, tokenCount, width, t)
  {
    if tokenCount == 0 || width == 0 || outputs == [] {
      return Err(WrongDimensions);
    }
    var combined := new real[tokenCount * width](_ => 0.0);
    var sums := new real[tokenCount](_ => 0.0);
    ZeroCombined(combined[..], tokenCount, width);
    for k := 0 to |outputs|
      invariant forall j | 0 <= j < k :: ValidRouted(outputs[j], tokenCount, width)
      invariant CombinedSoFar(combined[..], outputs[..k], tokenCount, width)
      invariant forall t | 0 <= t < tokenCount :: sums[t] == WeightOf(outputs[..k], tokenCount, width, t)
    {
      hide CombinedSoFar, ScatterAdded, Contribution;
      var o := outputs[k];
      if o.group.tokens == [] || |o.group.tokens| != |o.group.scores| || |o.values| != |o.group.tokens| * width
         || exists r :: 0 <= r < |o.group.tokens| && o.group.tokens[r] >= tokenCount {
        assert !ValidRouted(outputs[k], tokenCount, width);
        return Err(if o.group.tokens == [] || |o.group.tokens| != |o.group.scores|
                      || |o.values| != |o.group.tokens| * width then InvalidOutput else InvalidAssignment);
      }
      ghost var before := combined[..];
      assert combined.Length == tokenCount * width;
      ScatterAdd(combined, tokenCount, width, o.group, o.values);
      CombinedPush(combined[..], before, outputs[..k], o, tokenCount, width);
      AddWeights(sums, o.group);
      assert outputs[..k + 1] == outputs[..k] + [o];
      assert outputs[..k + 1][..k] == outputs[..k];
    }
    assert outputs[..|outputs|] == outputs;
    r := Ok((combined[..], sums[..]));
  }

  lemma {:induction false} ZeroCombined(values: seq<real>, tokenCount: nat, width: nat)
    requires |values| == tokenCount * width && forall i | 0 <= i < |values| :: values[i] == 0.0
    ensures CombinedSoFar(values, [], tokenCount, width)
  {
    forall t, h | 0 <= t < tokenCount && 0 <= h < width
      ensures Cell(values, tokenCount, width, t, h) == 0.0
    {
      CellBound(tokenCount, width, t, h);
    }
  }

  // ---- the runtime ----

  datatype RuntimeError = RoutingFailed | InvalidDecision | InvalidBatch | NoBatches | OmittedAssignments | UnknownExpert | UnfitExpert

  /** The check of one expert's batch (ExpertBatch::validate). */
  predicate ValidBatch(g: Group, tokenCount: nat) {
    && tokenCount > 0 && g.tokens != [] && |g.tokens| == |g.scores|
    && (forall i | 0 <= i < |g.tokens| :: g.tokens[i] < tokenCount)
    && (forall i, j | 0 <= i < j < |g.tokens| :: g.tokens[i] != g.tokens[j])
  }

  predicate ValidDecision(d: Batch) {
    && d.tokens != []
    && (forall t | 0 <= t < |d.tokens| :: d.tokens[t].ids != [] && |d.tokens[t].ids| == |d.tokens[t].scores|)
    && (forall g | 0 <= g < |d.groups| :: d.groups[g].tokens != [] && |d.groups[g].tokens| == |d.groups[g].scores|)
  }

  function Selections(ds: seq<Decision>): nat {
    if ds == [] then 0 else Selections(ds[..|ds| - 1]) + |ds[|ds| - 1].ids|
  }

  function Assignments(groups: seq<Group>): nat {
    if groups == [] then 0 else Assignments(groups[..|groups| - 1]) + |groups[|groups| - 1].tokens|
  }

  /** The experts' outputs as the theorems name them; zero outside the batch. */
  ghost function OutputOf(exp: real -> real, experts: map<ExpertId, Weights>, hidden: seq<real>, tokenCount: nat,
                          inputWidth: nat, outputWidth: nat): Output
    requires IsExp(exp) && |hidden| == tokenCount * inputWidth
  {
    (e: ExpertId, t: nat, h: nat) =>
      if e in experts && Fits(experts[e], inputWidth, outputWidth) && t < tokenCount && h < outputWidth
      then Mlp(exp, experts[e], Row(hidden, tokenCount, inputWidth, t), outputWidth)[h] else 0.0
  }

  /** The runtime's checks on a routing decision. */
  predicate ChecksPass(d: Batch, tokenCount: nat) {
    && ValidDecision(d) && |d.tokens| == tokenCount && d.groups != []
    && (forall g | 0 <= g < |d.groups| :: ValidBatch(d.groups[g], tokenCount))
    && Assignments(d.groups) == Selections(d.tokens)
  }

  /** When the runtime gets through: every check on the decision holds, and
      every expert is known and fits. */
  predicate Runnable(d: Batch, experts: map<ExpertId, Weights>, tokenCount: nat, inputWidth: nat) {
    && ChecksPass(d, tokenCount)
    && (forall g | 0 <= g < |d.groups| ::
          d.groups[g].expert in experts
          && Fits(experts[d.groups[g].expert], inputWidth, OutputWidth(d, experts)))
  }

  /** The first group's expert decides the width of the output. */
  function OutputWidth(d: Batch, experts: map<ExpertId, Weights>): nat {
    if d.groups != [] && d.groups[0].expert in experts then experts[d.groups[0].expert].output else 0
  }

  lemma {:induction false} RowBound(rows: nat, width: nat, r: nat)
    requires r < rows
    ensures 0 <= r * width && r * width + width <= rows * width
  {
    assert (r + 1) * width <= rows * width;
  }

  lemma {:induction false} RowSlice(values: seq<real>, rows: nat, width: nat, r: nat)
    requires |values| == rows * width && r < rows
    ensures 0 <= r * width && r * width + width <= rows * width
    ensures values[r * width..r * width + width] == Row(values, rows, width, r)
  {
    RowBound(rows, width, r);
    SliceFrom(values, rows, width, r, r * width);
  }

  lemma {:induction false} SliceFrom(values: seq<real>, rows: nat, width: nat, r: nat, from: nat)
    requires |values| == rows * width && r < rows && from == r * width && from + width <= |values|
    ensures values[from..from + width] == Row(values, rows, width, r)
  {
    var slice, row := values[from..from + width], Row(values, rows, width, r);
    forall h | 0 <= h < width ensures slice[h] == row[h] {
      RowAt(values, rows, width, r, h, from);
    }
  }

  lemma {:induction false} RowAt(values: seq<real>, rows: nat, width: nat, r: nat, h: nat, from: nat)
    requires |values| == rows * width && r < rows && h < width && from == r * width && from + width <= |values|
    ensures Row(values, rows, width, r)[h] == values[from + h]
  {
  }

  ghost function GatheredRows(hidden: seq<real>, tokenCount: nat, width: nat, tokens: seq<nat>): (r: seq<seq<real>>)
    requires |hidden| == tokenCount * width && forall i | 0 <= i < |tokens| :: tokens[i] < tokenCount
    ensures |r| == |tokens|
    ensures forall i | 0 <= i < |r| :: |r[i]| == width
  {
    seq(|tokens|, i requires 0 <= i < |tokens| => Row(hidden, tokenCount, width, tokens[i]))
  }

  /** The rows of a group's tokens, copied one after another. */
  method Gather(hidden: seq<real>, tokenCount: nat, width: nat, tokens: seq<nat>) returns (input: seq<real>)
    requires |hidden| == tokenCount * width && forall i | 0 <= i < |tokens| :: tokens[i] < tokenCount
    ensures IsRows(input, width, GatheredRows(hidden, tokenCount, width, tokens))
  {
    input := [];
    ghost var all := GatheredRows(hidden, tokenCount, width, tokens);
    for i := 0 to |tokens|
      invariant IsRows(input, width, all[..i])
    {
      RowSlice(hidden, tokenCount, width, tokens[i]);
      var row := hidden[tokens[i] * width..tokens[i] * width + width];
      IsRowsPush(input, width, all[..i], row);
      assert all[..i] + [row] == all[..i + 1];
      input := input + row;
    }
    assert all[..|tokens|] == all;
  }

  lemma {:induction false} ContributionIsTotal(out: Output, g: Group, token: nat, h: nat, f: nat -> real, n: nat)
    requires n <= |g.tokens| == |g.scores|
    requires forall r: nat | r < n :: f(r) == out(g.expert, g.tokens[r], h)
    ensures Contribution(g, token, f, n) == Total(out, GroupRows(g)[..n], token, h)
  {
    if n > 0 {
      ContributionIsTotal(out, g, token, h, f, n - 1);
      assert GroupRows(g)[..n][..n - 1] == GroupRows(g)[..n - 1];
    }
  }

  lemma {:induction false} AllRowsPush(groups: seq<Group>, g: Group)
    requires forall i | 0 <= i < |groups| :: |groups[i].tokens| == |groups[i].scores|
    requires |g.tokens| == |g.scores|
    ensures AllRows(groups + [g]) == AllRows(groups) + GroupRows(g)
  {
    if groups != [] {
      AllRowsPush(groups[1..], g);
      assert (groups + [g])[1..] == groups[1..] + [g];
    }
  }

  /** The output so far, after the first groups. */
  ghost predicate HoldsTotals(values: seq<real>, tokenCount: nat, width: nat, out: Output, groups: seq<Group>)
    requires forall i | 0 <= i < |groups| :: |groups[i].tokens| == |groups[i].scores|
  {
    && |values| == tokenCount * width
    && forall t, h | 0 <= t < tokenCount && 0 <= h < width ::
         Cell(values, tokenCount, width, t, h) == Total(out, AllRows(groups), t, h)
  }

  /** The rows of a buffer are an expert's outputs for a group's tokens. */
  ghost predicate HoldsOutputs(values: seq<real>, width: nat, out: Output, g: Group) {
    && |values| == |g.tokens| * width
    && forall r, h | 0 <= r < |g.tokens| && 0 <= h < width ::
         Cell(values, |g.tokens|, width, r, h) == out(g.expert, g.tokens[r], h)
  }

  lemma {:induction false} TotalsPush(now: seq<real>, before: seq<real>, tokenCount: nat, width: nat, out: Output,
                                      groups: seq<Group>, g: Group, values: seq<real>)
    requires forall i | 0 <= i < |groups| :: |groups[i].tokens| == |groups[i].scores|
    requires |g.tokens| == |g.scores|
    requires HoldsTotals(before, tokenCount, width, out, groups)
    requires HoldsOutputs(values, width, out, g)
    requires ScatterAdded(now, before, tokenCount, width, g, values, |g.tokens|)
    ensures HoldsTotals(now, tokenCount, width, out, groups + [g])
  {
    hide Cell, Total, Contribution, AllRows;
    AllRowsPush(groups, g);
    forall t, h | 0 <= t < tokenCount && 0 <= h < width
      ensures Cell(now, tokenCount, width, t, h) == Total(out, AllRows(groups + [g]), t, h)
    {
      ContributionIsTotal(out, g, t, h, Component(values, |g.tokens|, width, h), |g.tokens|);
      assert GroupRows(g)[..|g.tokens|] == GroupRows(g);
      TotalAppend(out, AllRows(groups), GroupRows(g), t, h);
    }
  }

  lemma {:induction false} ZeroTotals(values: seq<real>, tokenCount: nat, width: nat, out: Output)
    requires |values| == tokenCount * width && forall i | 0 <= i < |values| :: values[i] == 0.0
    ensures HoldsTotals(values, tokenCount, width, out, [])
  {
    forall t, h | 0 <= t < tokenCount && 0 <= h < width
      ensures Cell(values, tokenCount, width, t, h) == 0.0
    {
      CellBound(tokenCount, width, t, h);
    }
  }

  lemma {:induction false} OutputsHeld(exp: real -> real, experts: map<ExpertId, Weights>, hidden: seq<real>,
                                       tokenCount: nat, inputWidth: nat, outputWidth: nat, g: Group,
                                       values: seq<real>)
    requires IsExp(exp) && |hidden| == tokenCount * inputWidth && g.expert in experts
    requires Fits(experts[g.expert], inputWidth, outputWidth)
    requires forall i | 0 <= i < |g.tokens| :: g.tokens[i] < tokenCount
    requires IsRows(values, outputWidth, MlpRows(
      exp, experts[g.expert], GatheredRows(hidden, tokenCount, inputWidth, g.tokens), inputWidth, outputWidth))
    ensures HoldsOutputs(values, outputWidth, OutputOf(exp, experts, hidden, tokenCount, inputWidth, outputWidth), g)
  {
    hide Cell, Mlp;
    var rows := MlpRows(
      exp, experts[g.expert], GatheredRows(hidden, tokenCount, inputWidth, g.tokens), inputWidth, outputWidth);
    forall r, h | 0 <= r < |g.tokens| && 0 <= h < outputWidth
      ensures Cell(values, |g.tokens|, outputWidth, r, h) == rows[r][h]
    {
      assert Row(values, |rows|, outputWidth, r)[h] == Cell(values, |g.tokens|, outputWidth, r, h);
    }
  }

  /** One group: gather its rows, run its expert, add the weighted rows back. */
  method RunGroup(exp: real -> real, hidden: seq<real>, tokenCount: nat, inputWidth: nat, outputWidth: nat,
                  experts: map<ExpertId, Weights>, g: Group, combined: array<real>, ghost done: seq<Group>)
    requires IsExp(exp) && |hidden| == tokenCount * inputWidth && ValidBatch(g, tokenCount)
    requires g.expert in experts && Fits(experts[g.expert], inputWidth, outputWidth)
    requires forall i | 0 <= i < |done| :: |done[i].tokens| == |done[i].scores|
    requires var out := OutputOf(exp, experts, hidden, tokenCount, inputWidth, outputWidth);
      HoldsTotals(combined[..], tokenCount, outputWidth, out, done)
    modifies combined
    ensures var out := OutputOf(exp, experts, hidden, tokenCount, inputWidth, outputWidth);
      HoldsTotals(combined[..], tokenCount, outputWidth, out, done + [g])
  {
    var input := Gather(hidden, tokenCount, inputWidth, g.tokens);
    var values := RunExpert(exp, input, experts[g.expert],
                            GatheredRows(hidden, tokenCount, inputWidth, g.tokens), |g.tokens|, inputWidth, outputWidth);
    ghost var before := combined[..];
    OutputsHeld(exp, experts, hidden, tokenCount, inputWidth, outputWidth, g, values);
    ScatterAdd(combined, tokenCount, outputWidth, g, values);
    TotalsPush(combined[..], before, tokenCount, outputWidth,
               OutputOf(exp, experts, hidden, tokenCount, inputWidth, outputWidth), done, g, values);
  }

  method CountAssignments(d: Batch) returns (grouped: nat, selected: nat)
    ensures grouped == Assignments(d.groups) && selected == Selections(d.tokens)
  {
    grouped, selected := 0, 0;
    for g := 0 to |d.groups|
      invariant grouped == Assignments(d.groups[..g])
    {
      assert d.groups[..g + 1][..g] == d.groups[..g];
      grouped := grouped + |d.groups[g].tokens|;
    }
    for t := 0 to |d.tokens|
      invariant selected == Selections(d.tokens[..t])
    {
      assert d.tokens[..t + 1][..t] == d.tokens[..t];
      selected := selected + |d.tokens[t].ids|;
    }
    assert d.groups[..|d.groups|] == d.groups && d.tokens[..|d.tokens|] == d.tokens;
  }

  /** The batch loop of the runtime on the host. It succeeds exactly when its
      checks pass, and then each component of each token is the total over all
      rows of all groups. */
  method ExecuteBatch(exp: real -> real, hidden: seq<real>, tokenCount: nat, inputWidth: nat, d: Batch,
                      experts: map<ExpertId, Weights>)
    returns (r: Result<seq<real>, RuntimeError>)
    requires IsExp(exp) && |hidden| == tokenCount * inputWidth
    ensures r.Ok? <==> Runnable(d, experts, tokenCount, inputWidth)
    ensures r.Err? && ChecksPass(d, tokenCount) ==> r.error == UnknownExpert || r.error == UnfitExpert
    ensures r.Ok? ==>
      var width := OutputWidth(d, experts);
      HoldsTotals(r.value, tokenCount, width, OutputOf(exp, experts, hidden, tokenCount, inputWidth, width), d.groups)
  {
    if !ValidDecision(d) || |d.tokens| != tokenCount {
      return Err(InvalidDecision);
    }
    for g := 0 to |d.groups|
      invariant forall j | 0 <= j < g :: ValidBatch(d.groups[j], tokenCount)
    {
      if !ValidBatch(d.groups[g], tokenCount) {
        return Err(InvalidBatch);
      }
    }
    if d.groups == [] {
      return Err(NoBatches);
    }
    var grouped, selected := CountAssignments(d);
    if grouped != selected {
      return Err(OmittedAssignments);
    }
    if d.groups[0].expert !in experts {
      return Err(UnknownExpert);
    }
    var width := experts[d.groups[0].expert].output;
    var combined := new real[tokenCount * width](_ => 0.0);
    ZeroTotals(combined[..], tokenCount, width, OutputOf(exp, experts, hidden, tokenCount, inputWidth, width));
    for g := 0 to |d.groups|
      invariant forall j | 0 <= j < g ::
        d.groups[j].expert in experts && Fits(experts[d.groups[j].expert], inputWidth, width)
      invariant HoldsTotals(combined[..], tokenCount, width,
                            OutputOf(exp, experts, hidden, tokenCount, inputWidth, width), d.groups[..g])
    {
      hide HoldsTotals, OutputOf, Fits;
      if d.groups[g].expert !in experts {
        return Err(UnknownExpert);
      }
      if !Fits(experts[d.groups[g].expert], inputWidth, width) {
        return Err(UnfitExpert);
      }
      RunGroup(exp, hidden, tokenCount, inputWidth, width, experts, d.groups[g], combined, d.groups[..g]);
      assert d.groups[..g + 1] == d.groups[..g] + [d.groups[g]];
    }
    assert d.groups[..|d.groups|] == d.groups;
    r := Ok(combined[..]);
  }

  // ---- end to end ----

  lemma {:induction false} AssignmentsCount(groups: seq<Group>)
    requires forall i | 0 <= i < |groups| :: |groups[i].tokens| == |groups[i].scores|
    ensures |AllRows(groups)| == Assignments(groups)
  {
    if groups != [] {
      var n := |groups| - 1;
      AssignmentsCount(groups[..n]);
      AllRowsPush(groups[..n], groups[n]);
      assert groups == groups[..n] + [groups[n]];
    }
  }

  lemma {:induction false} SelectionsCount(ds: seq<Decision>)
    requires Even(ds)
    ensures |Flatten(ds)| == Selections(ds)
  {
    if ds != [] {
      SelectionsCount(ds[..|ds| - 1]);
    }
  }

  lemma {:induction false} SelectionsPositive(ds: seq<Decision>)
    requires ds != [] && forall t | 0 <= t < |ds| :: ds[t].ids != []
    ensures Selections(ds) > 0
  {
  }

  /** A batch the router built: every token's decision is even, not empty and
      free of repeats, and the groups are its assignments. */
  ghost predicate IsRouted(d: Batch) {
    && d.tokens != [] && Even(d.tokens)
    && (forall t | 0 <= t < |d.tokens| :: d.tokens[t].ids != [] && Distinct(d.tokens[t].ids))
    && Partitions(Flatten(d.tokens), d.groups)
  }

  /** No check of the runtime can fail on a batch the router built: no batch is
      invalid, the count of assignments is right, and there is a batch to run. */
  lemma {:induction false} RoutedBatchesPassChecks(d: Batch)
    requires IsRouted(d)
    ensures ChecksPass(d, |d.tokens|)
  {
    hide Rows, AllRows, Flatten;
    GroupsHoldEachOnce(Flatten(d.tokens), d.groups);
    AssignmentsCount(d.groups);
    SelectionsCount(d.tokens);
    SelectionsPositive(d.tokens);
    assert |multiset(AllRows(d.groups))| == |AllRows(d.groups)|;
    assert |multiset(Flatten(d.tokens))| == |Flatten(d.tokens)|;
    forall g | 0 <= g < |d.groups|
      ensures ValidBatch(d.groups[g], |d.tokens|)
    {
      TokensAscend(d.tokens, d.groups[g].expert);
      AscendingGroup(d.groups[g], |d.tokens|);
    }
  }

  lemma {:induction false} AscendingGroup(g: Group, tokenCount: nat)
    requires tokenCount > 0 && g.tokens != [] && |g.tokens| == |g.scores|
    requires Ascends(GroupRows(g), tokenCount)
    ensures ValidBatch(g, tokenCount)
    ensures forall i, j | 0 <= i < j < |g.tokens| :: g.tokens[i] < g.tokens[j]
  {
    assert forall i | 0 <= i < |g.tokens| :: GroupRows(g)[i].token == g.tokens[i];
  }

  /** The runtime keeps the meaning of a routed batch: each token gets exactly
      the sum over its selected experts of score times that expert's output. */
  lemma {:induction false} ExecutionGivesOwed(exp: real -> real, experts: map<ExpertId, Weights>, hidden: seq<real>,
                                              tokenCount: nat, inputWidth: nat, outputWidth: nat, d: Batch,
                                              values: seq<real>, t: nat, h: nat)
    requires IsExp(exp) && |hidden| == tokenCount * inputWidth
    requires IsRouted(d) && |d.tokens| == tokenCount && t < tokenCount && h < outputWidth
    requires var out := OutputOf(exp, experts, hidden, tokenCount, inputWidth, outputWidth);
      HoldsTotals(values, tokenCount, outputWidth, out, d.groups)
    ensures |values| == tokenCount * outputWidth
    ensures var out := OutputOf(exp, experts, hidden, tokenCount, inputWidth, outputWidth);
      Cell(values, tokenCount, outputWidth, t, h) == Owed(out, d.tokens[t], t, h, |d.tokens[t].ids|)
  {
    hide Cell, Owed, Total, OutputOf;
    GroupingKeepsMeaning(OutputOf(exp, experts, hidden, tokenCount, inputWidth, outputWidth), d.tokens, d.groups, t, h);
  }

  // ---- when routing and execution succeed ----

  predicate Selects(ds: seq<Decision>, e: ExpertId) {
    exists t :: 0 <= t < |ds| && e in ds[t].ids
  }

  lemma {:induction false} SelectsPush(ds: seq<Decision>, d: Decision, e: ExpertId)
    ensures Selects(ds + [d], e) <==> Selects(ds, e) || e in d.ids
  {
    assert (ds + [d])[|ds|] == d;
    assert forall t | 0 <= t < |ds| :: (ds + [d])[t] == ds[t];
  }

  lemma {:induction false} OfTokenExperts(d: Decision, token: nat, e: ExpertId)
    requires |d.ids| == |d.scores|
    ensures e in d.ids <==> exists a :: a in OfToken(d, token) && a.expert == e
  {
    if e in d.ids {
      var i :| 0 <= i < |d.ids| && d.ids[i] == e;
      assert OfToken(d, token)[i].expert == e;
    }
  }

  lemma {:induction false} FlatExperts(ds: seq<Decision>, e: ExpertId)
    requires Even(ds)
    ensures Selects(ds, e) <==> exists a :: a in Flatten(ds) && a.expert == e
  {
    if ds != [] {
      var n := |ds| - 1;
      assert ds[..n] + [ds[n]] == ds;
      FlatExperts(ds[..n], e);
      SelectsPush(ds[..n], ds[n], e);
      OfTokenExperts(ds[n], n, e);
      hide Selects, OfToken;
      assert forall a :: a in Flatten(ds) <==> a in Flatten(ds[..n]) || a in OfToken(ds[n], n);
    }
  }

  /** The groups' experts are the experts the tokens select. */
  lemma {:induction false} GroupsOfSelected(d: Batch, e: ExpertId)
    requires Even(d.tokens) && Partitions(Flatten(d.tokens), d.groups)
    ensures HasGroup(d.groups, e) <==> Selects(d.tokens, e)
  {
    FlatExperts(d.tokens, e);
    hide Selects, Flatten, Rows;
    if HasGroup(d.groups, e) {
      var i :| 0 <= i < |d.groups| && d.groups[i].expert == e;
      assert |GroupRows(d.groups[i])| == |d.groups[i].tokens|;
      RowsOccur(Flatten(d.tokens), e);
    }
  }

  predicate AllFit(ids: seq<ExpertId>, experts: map<ExpertId, Weights>, inputWidth: nat, width: nat) {
    forall e | e in ids :: e in experts && Fits(experts[e], inputWidth, width)
  }

  /** A routed batch can be run just when every selected expert is known, fits
      the input, and gives one and the same output width. */
  lemma {:induction false} RunnableExactly(d: Batch, experts: map<ExpertId, Weights>, inputWidth: nat, width: nat)
    requires IsRouted(d)
    ensures Runnable(d, experts, |d.tokens|, inputWidth) && width == OutputWidth(d, experts) <==>
      forall t | 0 <= t < |d.tokens| :: AllFit(d.tokens[t].ids, experts, inputWidth, width)
  {
    RoutedBatchesPassChecks(d);
    hide ChecksPass, IsRouted, Partitions, Flatten, Fits;
    assert Even(d.tokens) && Partitions(Flatten(d.tokens), d.groups) && d.groups != [] by { RoutedParts(d); }
    if Runnable(d, experts, |d.tokens|, inputWidth) && width == OutputWidth(d, experts) {
      forall t, e | 0 <= t < |d.tokens| && e in d.tokens[t].ids
        ensures e in experts && Fits(experts[e], inputWidth, width)
      {
        GroupsOfSelected(d, e);
        var g :| 0 <= g < |d.groups| && d.groups[g].expert == e;
      }
    }
    if forall t | 0 <= t < |d.tokens| :: AllFit(d.tokens[t].ids, experts, inputWidth, width) {
      forall g | 0 <= g < |d.groups|
        ensures d.groups[g].expert in experts && Fits(experts[d.groups[g].expert], inputWidth, width)
      {
        GroupsOfSelected(d, d.groups[g].expert);
        var t :| 0 <= t < |d.tokens| && d.groups[g].expert in d.tokens[t].ids;
      }
      FitsWidth(experts[d.groups[0].expert], inputWidth, width);
    }
  }

  lemma {:induction false} RoutedParts(d: Batch)
    requires IsRouted(d) && ChecksPass(d, |d.tokens|)
    ensures Even(d.tokens) && Partitions(Flatten(d.tokens), d.groups) && d.groups != []
  {
  }

  lemma {:induction false} FitsWidth(w: Weights, inputWidth: nat, width: nat)
    requires Fits(w, inputWidth, width)
    ensures w.output == width
  {
  }

  /** Every token's route exists, and every expert it selects is known, fits the
      input and gives outputs of this width. */
  ghost predicate Served(exp: real -> real, hidden: seq<real>, tokenCount: nat, inputWidth: nat,
                         routerWeights: seq<real>, config: RouterConfig, experts: map<ExpertId, Weights>, width: nat)
    requires IsExp(exp) && config.Valid()
    requires |hidden| == tokenCount * inputWidth && |routerWeights| == inputWidth * config.expertCount
  {
    forall t | 0 <= t < tokenCount ::
      var route := RouteOf(exp, hidden, tokenCount, inputWidth, routerWeights, config, t);
      route.Ok? && AllFit(route.value.ids, experts, inputWidth, width)
  }

  lemma {:induction false} NotServed(exp: real -> real, hidden: seq<real>, tokenCount: nat, inputWidth: nat,
                                     routerWeights: seq<real>, config: RouterConfig, experts: map<ExpertId, Weights>)
    requires IsExp(exp) && config.Valid()
    requires |hidden| == tokenCount * inputWidth && |routerWeights| == inputWidth * config.expertCount
    requires exists t | 0 <= t < tokenCount ::
      RouteOf(exp, hidden, tokenCount, inputWidth, routerWeights, config, t).Err?
    ensures !exists w: nat :: Served(exp, hidden, tokenCount, inputWidth, routerWeights, config, experts, w)
  {
    hide RouteOf, AllFit;
    var t :| 0 <= t < tokenCount && RouteOf(exp, hidden, tokenCount, inputWidth, routerWeights, config, t).Err?;
    forall w: nat ensures !Served(exp, hidden, tokenCount, inputWidth, routerWeights, config, experts, w) {
      assert !RouteOf(exp, hidden, tokenCount, inputWidth, routerWeights, config, t).Ok?;
    }
  }

  lemma {:induction false} ServedExactly(exp: real -> real, hidden: seq<real>, tokenCount: nat, inputWidth: nat,
                                         routerWeights: seq<real>, config: RouterConfig,
                                         experts: map<ExpertId, Weights>, d: Batch, w: nat)
    requires IsExp(exp) && config.Valid()
    requires |hidden| == tokenCount * inputWidth && |routerWeights| == inputWidth * config.expertCount
    requires IsRouted(d) && |d.tokens| == tokenCount
    requires forall t | 0 <= t < tokenCount ::
      RouteOf(exp, hidden, tokenCount, inputWidth, routerWeights, config, t) == Ok(d.tokens[t])
    ensures Served(exp, hidden, tokenCount, inputWidth, routerWeights, config, experts, w) <==>
      Runnable(d, experts, tokenCount, inputWidth) && w == OutputWidth(d, experts)
  {
    RunnableExactly(d, experts, inputWidth, w);
    hide RouteOf, AllFit, Runnable, IsRouted, OutputWidth;
    assert forall t | 0 <= t < tokenCount ::
      RouteOf(exp, hidden, tokenCount, inputWidth, routerWeights, config, t).value == d.tokens[t];
  }

  /** Routing and execution together: no check on the routing decision ever
      fires, and every component of every token is the sum, over the experts
      its own route selects, of score times that expert's output. It succeeds
      exactly when every token can be routed and the selected experts are known,
      fit the input and agree on a width. */
  method Execute(exp: real -> real, hidden: seq<real>, tokenCount: nat, inputWidth: nat, routerWeights: seq<real>,
                 config: RouterConfig, experts: map<ExpertId, Weights>)
    returns (r: Result<seq<real>, RuntimeError>, width: nat)
    requires IsExp(exp) && config.Valid() && tokenCount > 0
    requires |hidden| == tokenCount * inputWidth && |routerWeights| == inputWidth * config.expertCount
    ensures r.Err? ==> r.error == RoutingFailed || r.error == UnknownExpert || r.error == UnfitExpert
    ensures r == Err(RoutingFailed) <==> exists t | 0 <= t < tokenCount ::
      RouteOf(exp, hidden, tokenCount, inputWidth, routerWeights, config, t).Err?
    ensures r.Ok? <==>
      exists w: nat :: Served(exp, hidden, tokenCount, inputWidth, routerWeights, config, experts, w)
    ensures r.Ok? ==> Served(exp, hidden, tokenCount, inputWidth, routerWeights, config, experts, width)
    ensures r.Ok? ==> |r.value| == tokenCount * width
    ensures r.Ok? ==> forall t, h | 0 <= t < tokenCount && 0 <= h < width ::
      var route := RouteOf(exp, hidden, tokenCount, inputWidth, routerWeights, config, t);
      var out := OutputOf(exp, experts, hidden, tokenCount, inputWidth, width);
      route.Ok? && Cell(r.value, tokenCount, width, t, h) == Owed(out, route.value, t, h, |route.value.ids|)
  {
    hide RouteOf, OutputOf, Owed, Flatten, Partitions, Cell, Served, Runnable, OutputWidth;
    width := 0;
    var routed := RouteBatch(exp, hidden, tokenCount, inputWidth, routerWeights, config);
    if routed.Err? {
      NotServed(exp, hidden, tokenCount, inputWidth, routerWeights, config, experts);
      return Err(RoutingFailed), 0;
    }
    var d := routed.value;
    assert forall t | 0 <= t < tokenCount ::
      RouteOf(exp, hidden, tokenCount, inputWidth, routerWeights, config, t).value == d.tokens[t];
    RoutedBatchesPassChecks(d);
    width := OutputWidth(d, experts);
    forall w: nat
      ensures Runnable(d, experts, tokenCount, inputWidth) && w == width <==>
        Served(exp, hidden, tokenCount, inputWidth, routerWeights, config, experts, w)
    {
      ServedExactly(exp, hidden, tokenCount, inputWidth, routerWeights, config, experts, d, w);
    }
    ServedExactly(exp, hidden, tokenCount, inputWidth, routerWeights, config, experts, d, width);
    r := ExecuteBatch(exp, hidden, tokenCount, inputWidth, d, experts);
    if r.Ok? {
      forall t, h | 0 <= t < tokenCount && 0 <= h < width
        ensures |r.value| == tokenCount * width
        ensures Cell(r.value, tokenCount, width, t, h)
             == Owed(OutputOf(exp, experts, hidden, tokenCount, inputWidth, width), d.tokens[t], t, h, |d.tokens[t].ids|)
      {
        ExecutionGivesOwed(exp, experts, hidden, tokenCount, inputWidth, width, d, r.value, t, h);
      }
    }
  }

  /** One more group adds its contribution to the total. */
  lemma {:induction false} GroupTotal(out: Output, groups: seq<Group>, g: Group, t: nat, h: nat, f: nat -> real)
    requires forall i | 0 <= i < |groups| :: |groups[i].tokens| == |groups[i].scores|
    requires |g.tokens| == |g.scores| && forall r: nat | r < |g.tokens| :: f(r) == out(g.expert, g.tokens[r], h)
    ensures forall i | 0 <= i < |groups + [g]| :: |(groups + [g])[i].tokens| == |(groups + [g])[i].scores|
    ensures Total(out, AllRows(groups + [g]), t, h)
         == Total(out, AllRows(groups), t, h) + Contribution(g, t, f, |g.tokens|)
  {
    hide Total, Contribution, AllRows;
    ContributionIsTotal(out, g, t, h, f, |g.tokens|);
    assert GroupRows(g)[..|g.tokens|] == GroupRows(g);
    AllRowsPush(groups, g);
    TotalAppend(out, AllRows(groups), GroupRows(g), t, h);
  }

  lemma {:induction false} ComponentGives(values: seq<real>, width: nat, out: Output, g: Group, h: nat)
    requires HoldsOutputs(values, width, out, g) && h < width
    ensures forall r: nat | r < |g.tokens| :: Component(values, |g.tokens|, width, h)(r) == out(g.expert, g.tokens[r], h)
  {
    hide Cell;
  }

  lemma {:induction false} GroupsPush(outputs: seq<Routed>, tokenCount: nat, width: nat)
    requires outputs != [] && forall k | 0 <= k < |outputs| :: ValidRouted(outputs[k], tokenCount, width)
    ensures var n := |outputs| - 1;
      var o := outputs[n];
      && GroupsOf(outputs) == GroupsOf(outputs[..n]) + [o.group]
      && (forall i | 0 <= i < n ::
            |GroupsOf(outputs[..n])[i].tokens| == |GroupsOf(outputs[..n])[i].scores|)
      && |o.group.tokens| == |o.group.scores| && |o.values| == |o.group.tokens| * width
  {
  }

  lemma {:induction false} CombinedIsTotal(out: Output, outputs: seq<Routed>, tokenCount: nat, width: nat, t: nat,
                                        h: nat)
    requires forall k | 0 <= k < |outputs| :: ValidRouted(outputs[k], tokenCount, width)
    requires forall k | 0 <= k < |outputs| :: HoldsOutputs(outputs[k].values, width, out, outputs[k].group)
    requires h < width
    ensures Combined(outputs, tokenCount, width, t, h) == Total(out, AllRows(GroupsOf(outputs)), t, h)
  {
    if outputs != [] {
      GroupsPush(outputs, tokenCount, width);
      hide Total, Contribution, AllRows, HoldsOutputs, Component, GroupsOf, ValidRouted;
      var n := |outputs| - 1;
      var g, values := outputs[n].group, outputs[n].values;
      ComponentGives(values, width, out, g, h);
      CombinedIsTotal(out, outputs[..n], tokenCount, width, t, h);
      GroupTotal(out, GroupsOf(outputs[..n]), g, t, h, Component(values, |g.tokens|, width, h));
    } else {
      assert GroupsOf(outputs) == [];
    }
  }

  function GroupsOf(outputs: seq<Routed>): (r: seq<Group>)
    ensures |r| == |outputs|
  {
    seq(|outputs|, k requires 0 <= k < |outputs| => outputs[k].group)
  }

  /** The oracle agrees with the runtime: combining the same experts' outputs,
      with the groups in any order, gives every token what it is owed, and the
      weights it reports are the sums of the routing scores. */
  lemma {:induction false} OracleAgrees(out: Output, ds: seq<Decision>, outputs: seq<Routed>, tokenCount: nat,
                                        width: nat, t: nat, h: nat)
    requires forall k | 0 <= k < |outputs| :: ValidRouted(outputs[k], tokenCount, width)
    requires forall k | 0 <= k < |outputs| :: HoldsOutputs(outputs[k].values, width, out, outputs[k].group)
    requires Even(ds) && Partitions(Flatten(ds), GroupsOf(outputs)) && |ds| == tokenCount && t < tokenCount && h < width
    ensures Combined(outputs, tokenCount, width, t, h) == Owed(out, ds[t], t, h, |ds[t].ids|)
    ensures WeightOf(outputs, tokenCount, width, t) == Sum(ds[t].scores)
  {
    CombinedIsTotal(out, outputs, tokenCount, width, t, h);
    GroupingKeepsMeaning(out, ds, GroupsOf(outputs), t, h);
    WeightIsTotal(outputs, tokenCount, width, t);
    GroupingKeepsMeaning(Unit, ds, GroupsOf(outputs), t, 0);
    OwedUnit(ds[t], t, |ds[t].ids|);
    assert ds[t].scores[..|ds[t].ids|] == ds[t].scores;
  }

  function Unit(e: ExpertId, t: nat, h: nat): real {
    1.0
  }

  lemma {:induction false} OwedUnit(d: Decision, t: nat, n: nat)
    requires |d.ids| == |d.scores| && n <= |d.ids|
    ensures Owed(Unit, d, t, 0, n) == Sum(d.scores[..n])
  {
    if n > 0 {
      OwedUnit(d, t, n - 1);
      assert d.scores[..n][..n - 1] == d.scores[..n - 1];
    }
  }

  lemma {:induction false} WeightIsTotal(outputs: seq<Routed>, tokenCount: nat, width: nat, t: nat)
    requires forall k | 0 <= k < |outputs| :: ValidRouted(outputs[k], tokenCount, width)
    ensures WeightOf(outputs, tokenCount, width, t) == Total(Unit, AllRows(GroupsOf(outputs)), t, 0)
  {
    if outputs != [] {
      GroupsPush(outputs, tokenCount, width);
      hide Total, Contribution, AllRows, GroupsOf, ValidRouted;
      var n := |outputs| - 1;
      var g := outputs[n].group;
      WeightIsTotal(outputs[..n], tokenCount, width, t);
      GroupTotal(Unit, GroupsOf(outputs[..n]), g, t, 0, One);
    } else {
      assert GroupsOf(outputs) == [];
    }
  }
}
