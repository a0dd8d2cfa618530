/**
Regrouping token decisions by expert: CpuRouterBackend::routeBatch and
makeDecision of the CUDA router. An assignment is one (expert, token, score)
of one token's selection; both builders turn the flat list of assignments into
groups.
 */
module Grouping {
  import opened Wrappers
  import opened Matrices
  import opened Routing
  import Products

  datatype Assignment = Assignment(expert: ExpertId, token: nat, score: real)

  datatype Group = Group(expert: ExpertId, tokens: seq<nat>, scores: seq<real>)

  datatype Batch = Batch(tokens: seq<Decision>, groups: seq<Group>)

  /** One token's assignments, in rank order. */
  function OfToken(d: Decision, token: nat): (r: seq<Assignment>)
    requires |d.ids| == |d.scores|
    ensures |r| == |d.ids|
  {
    seq(|d.ids|, i requires 0 <= i < |d.ids| => Assignment(d.ids[i], token, d.scores[i]))
  }

  predicate Even(ds: seq<Decision>) {
    forall t | 0 <= t < |ds| :: |ds[t].ids| == |ds[t].scores|
  }

  /** All assignments of a batch, token by token. */
  function Flatten(ds: seq<Decision>): seq<Assignment>
    requires Even(ds)
  {
    if ds == [] then [] else Flatten(ds[..|ds| - 1]) + OfToken(ds[|ds| - 1], |ds| - 1)
  }

  lemma {:induction false} FlattenPush(ds: seq<Decision>, d: Decision)
    requires Even(ds) && |d.ids| == |d.scores|
    ensures Flatten(ds + [d]) == Flatten(ds) + OfToken(d, |ds|)
  {
    assert (ds + [d])[..|ds|] == ds;
  }

  /** The assignments of one expert, in order. */
  function Rows(flat: seq<Assignment>, e: ExpertId): seq<Assignment> {
    if flat == [] then []
    else if flat[|flat| - 1].expert == e then Rows(flat[..|flat| - 1], e) + [flat[|flat| - 1]]
    else Rows(flat[..|flat| - 1], e)
  }

  function Others(flat: seq<Assignment>, e: ExpertId): seq<Assignment> {
    if flat == [] then []
    else if flat[|flat| - 1].expert != e then Others(flat[..|flat| - 1], e) + [flat[|flat| - 1]]
    else Others(flat[..|flat| - 1], e)
  }

  function GroupRows(g: Group): (r: seq<Assignment>)
    requires |g.tokens| == |g.scores|
    ensures |r| == |g.tokens|
  {
    seq(|g.tokens|, i requires 0 <= i < |g.tokens| => Assignment(g.expert, g.tokens[i], g.scores[i]))
  }

  predicate Holds(g: Group, rows: seq<Assignment>) {
    |g.tokens| == |g.scores| && GroupRows(g) == rows
  }

  ghost predicate HasGroup(groups: seq<Group>, e: ExpertId) {
    exists i :: 0 <= i < |groups| && groups[i].expert == e
  }

  /** The groups, in any order, are the assignments split by expert: one group
      for each expert that occurs, holding exactly its assignments in order. */
  ghost predicate Partitions(flat: seq<Assignment>, groups: seq<Group>) {
    && (forall i, j | 0 <= i < j < |groups| :: groups[i].expert != groups[j].expert)
    && (forall a | a in flat :: HasGroup(groups, a.expert))
    && (forall i | 0 <= i < |groups| :: groups[i].tokens != [] && Holds(groups[i], Rows(flat, groups[i].expert)))
  }

  predicate Sorted(groups: seq<Group>) {
    forall i, j | 0 <= i < j < |groups| :: groups[i].expert < groups[j].expert
  }

  /** What both builders return: the groups in ascending order of expert. */
  ghost predicate Grouped(flat: seq<Assignment>, groups: seq<Group>) {
    Partitions(flat, groups) && Sorted(groups)
  }

  // ---- the groups are determined by the assignments ----

  lemma {:induction false} RowsOccur(flat: seq<Assignment>, e: ExpertId)
    ensures Rows(flat, e) != [] <==> exists a :: a in flat && a.expert == e
  {
    if flat != [] {
      var front, last := flat[..|flat| - 1], flat[|flat| - 1];
      RowsOccur(front, e);
      assert flat == front + [last];
      assert last in flat;
      assert forall a :: a in front ==> a in flat;
    }
  }

  lemma {:induction false} ExpertsAgree(flat: seq<Assignment>, groups: seq<Group>, other: seq<Group>, i: nat)
    requires Partitions(flat, groups) && Partitions(flat, other) && i < |groups|
    ensures exists j :: 0 <= j < |other| && other[j] == groups[i]
  {
    RowsOccur(flat, groups[i].expert);
    assert |GroupRows(groups[i])| == |groups[i].tokens|;
    var a :| a in flat && a.expert == groups[i].expert;
    var j :| 0 <= j < |other| && other[j].expert == a.expert;
    SameRows(groups[i], other[j]);
  }

  lemma {:induction false} SameRows(g: Group, h: Group)
    requires |g.tokens| == |g.scores| && |h.tokens| == |h.scores|
    requires g.expert == h.expert && GroupRows(g) == GroupRows(h)
    ensures g == h
  {
    assert |GroupRows(g)| == |g.tokens| && |GroupRows(h)| == |h.tokens|;
    forall i | 0 <= i < |g.tokens|
      ensures g.tokens[i] == h.tokens[i] && g.scores[i] == h.scores[i]
    {
      assert GroupRows(g)[i] == GroupRows(h)[i];
    }
  }

  /** Sorted groups of the same assignments are the same list. */
  lemma {:induction false} GroupedUnique(flat: seq<Assignment>, groups: seq<Group>, other: seq<Group>)
    requires Grouped(flat, groups) && Grouped(flat, other)
    ensures groups == other
  {
    forall i | 0 <= i < |groups| ensures groups[i] in other { ExpertsAgree(flat, groups, other, i); }
    forall i | 0 <= i < |other| ensures other[i] in groups { ExpertsAgree(flat, other, groups, i); }
    SortedSetsEqual(groups, other);
  }

  lemma {:induction false} LastsEqual(s: seq<Group>, t: seq<Group>)
    requires Sorted(s) && Sorted(t) && s != [] && t != []
    requires forall g :: g in s <==> g in t
    ensures s[|s| - 1] == t[|t| - 1]
  {
    var a, b := s[|s| - 1], t[|t| - 1];
    assert a in s && b in t;
    var i :| 0 <= i < |s| && s[i] == b;
    var j :| 0 <= j < |t| && t[j] == a;
    assert i < |s| - 1 ==> b.expert < a.expert;
    assert j < |t| - 1 ==> a.expert < b.expert;
  }

  lemma {:induction false} EmptyTogether(s: seq<Group>, t: seq<Group>)
    requires forall g :: g in s <==> g in t
    ensures s == [] <==> t == []
  {
    if s != [] {
      assert s[0] in t;
    }
    if t != [] {
      assert t[0] in s;
    }
  }

  lemma {:induction false} FrontMembers(s: seq<Group>, g: Group)
    requires Sorted(s) && s != []
    ensures g in s[..|s| - 1] <==> g in s && g != s[|s| - 1]
  {
    if g in s && g != s[|s| - 1] {
      var i :| 0 <= i < |s| && s[i] == g;
      assert s[..|s| - 1][i] == g;
    }
  }

  lemma {:induction false} SortedSetsEqual(s: seq<Group>, t: seq<Group>)
    requires Sorted(s) && Sorted(t)
    requires forall g :: g in s <==> g in t
    ensures s == t
  {
    EmptyTogether(s, t);
    if s != [] {
      LastsEqual(s, t);
      var u, v := s[..|s| - 1], t[..|t| - 1];
      forall g | g in u ensures g in v {
        FrontMembers(s, g);
        FrontMembers(t, g);
      }
      forall g | g in v ensures g in u {
        FrontMembers(s, g);
        FrontMembers(t, g);
      }
      SortedSetsEqual(u, v);
      assert s == s[..|s| - 1] + [s[|s| - 1]] && t == t[..|t| - 1] + [t[|t| - 1]];
    }
  }

  // ---- each assignment exactly once ----

  /** All rows of all groups, one group after another. */
  function AllRows(groups: seq<Group>): seq<Assignment>
    requires forall i | 0 <= i < |groups| :: |groups[i].tokens| == |groups[i].scores|
  {
    if groups == [] then [] else GroupRows(groups[0]) + AllRows(groups[1..])
  }

  lemma {:induction false} SplitByExpert(flat: seq<Assignment>, e: ExpertId)
    ensures multiset(flat) == multiset(Rows(flat, e)) + multiset(Others(flat, e))
    ensures forall a :: a in Others(flat, e) <==> a in flat && a.expert != e
  {
    if flat != [] {
      SplitByExpert(flat[..|flat| - 1], e);
      assert flat == flat[..|flat| - 1] + [flat[|flat| - 1]];
    }
  }

  lemma {:induction false} OtherRows(flat: seq<Assignment>, e: ExpertId, d: ExpertId)
    requires d != e
    ensures Rows(Others(flat, e), d) == Rows(flat, d)
  {
    if flat != [] {
      var front, last := flat[..|flat| - 1], flat[|flat| - 1];
      OtherRows(front, e, d);
      if last.expert != e {
        assert (Others(front, e) + [last])[..|Others(front, e)|] == Others(front, e);
      }
    }
  }

  /** The groups, in any order, hold each assignment exactly once. */
  lemma {:induction false} GroupsHoldEachOnce(flat: seq<Assignment>, groups: seq<Group>)
    requires Partitions(flat, groups)
    ensures multiset(AllRows(groups)) == multiset(flat)
    decreases |groups|
  {
    if groups == [] {
      assert !(|flat| > 0 && flat[0] in flat && HasGroup(groups, flat[0].expert));
      assert flat == [];
    } else {
      var e, rest := groups[0].expert, Others(flat, groups[0].expert);
      SplitByExpert(flat, e);
      forall i | 1 <= i < |groups| ensures Rows(rest, groups[i].expert) == Rows(flat, groups[i].expert) {
        OtherRows(flat, e, groups[i].expert);
      }
      forall a | a in rest
        ensures HasGroup(groups[1..], a.expert)
      {
        var i :| 0 <= i < |groups| && groups[i].expert == a.expert;
        assert groups[1..][i - 1].expert == a.expert;
      }
      GroupsHoldEachOnce(rest, groups[1..]);
    }
  }

  /** A token is at most once in a group, and a group lists its tokens in
      ascending order, when no token selects an expert twice. */
  lemma {:induction false} TokensAscend(ds: seq<Decision>, e: ExpertId)
    requires Even(ds)
    requires forall t | 0 <= t < |ds| :: Distinct(ds[t].ids)
    ensures Ascends(Rows(Flatten(ds), e), |ds|)
  {
    if ds != [] {
      var n := |ds| - 1;
      TokensAscend(ds[..n], e);
      var front, last := Flatten(ds[..n]), OfToken(ds[n], n);
      RowsAppend(front, last, e);
      assert forall i | 0 <= i < |last| :: last[i].expert == ds[n].ids[i];
      AtMostOneRow(last, e, n);
      AppendAscends(Rows(front, e), Rows(last, e), n);
    }
  }

  /** Ascending tokens below a bound. */
  predicate Ascends(rows: seq<Assignment>, bound: nat) {
    && (forall i | 0 <= i < |rows| :: rows[i].token < bound)
    && (forall i, j | 0 <= i < j < |rows| :: rows[i].token < rows[j].token)
  }

  lemma {:induction false} AppendAscends(s: seq<Assignment>, t: seq<Assignment>, n: nat)
    requires Ascends(s, n)
    requires |t| <= 1 && forall i | 0 <= i < |t| :: t[i].token == n
    ensures Ascends(s + t, n + 1)
  {
  }

  predicate Distinct(ids: seq<ExpertId>) {
    forall i, j | 0 <= i < j < |ids| :: ids[i] != ids[j]
  }

  lemma {:induction false} RowsAppend(s: seq<Assignment>, t: seq<Assignment>, e: ExpertId)
    ensures Rows(s + t, e) == Rows(s, e) + Rows(t, e)
  {
    if t == [] {
      assert s + t == s;
    } else {
      assert (s + t)[..|s + t| - 1] == s + t[..|t| - 1];
      RowsAppend(s, t[..|t| - 1], e);
    }
  }

  lemma {:induction false} AtMostOneRow(s: seq<Assignment>, e: ExpertId, token: nat)
    requires forall i | 0 <= i < |s| :: s[i].token == token
    requires forall i, j | 0 <= i < j < |s| :: s[i].expert != s[j].expert
    ensures |Rows(s, e)| <= 1
    ensures forall i | 0 <= i < |Rows(s, e)| :: Rows(s, e)[i].token == token
  {
    if s != [] {
      AtMostOneRow(s[..|s| - 1], e, token);
      RowsOccur(s[..|s| - 1], e);
    }
  }

  lemma {:induction false} TopKDistinct(scores: seq<real>, k: nat, ids: seq<ExpertId>)
    requires IsTopK(scores, k, ids)
    ensures Distinct(ids)
  {
    assert forall i, j | 0 <= i < j < k :: Ranks(scores, ids[i], ids[j]);
  }

  // ---- the two builders ----

  /** The groups so far and where each expert's group stands. */
  ghost predicate Indexed(flat: seq<Assignment>, groups: seq<Group>, positions: map<ExpertId, nat>) {
    && Partitions(flat, groups)
    && (forall e | e in positions :: positions[e] < |groups| && groups[positions[e]].expert == e)
    && (forall i | 0 <= i < |groups| :: groups[i].expert in positions && positions[groups[i].expert] == i)
  }

  lemma {:induction false} RowsPush(flat: seq<Assignment>, a: Assignment, e: ExpertId)
    ensures Rows(flat + [a], e) == if a.expert == e then Rows(flat, e) + [a] else Rows(flat, e)
  {
    assert (flat + [a])[..|flat|] == flat;
  }

  function With(g: Group, a: Assignment): Group {
    g.(tokens := g.tokens + [a.token], scores := g.scores + [a.score])
  }

  lemma {:induction false} WithRows(g: Group, a: Assignment)
    requires |g.tokens| == |g.scores| && a.expert == g.expert
    ensures GroupRows(With(g, a)) == GroupRows(g) + [a]
  {
  }

  lemma {:induction false} JoinKeeps(flat: seq<Assignment>, groups: seq<Group>, positions: map<ExpertId, nat>,
                                     a: Assignment)
    requires Indexed(flat, groups, positions) && a.expert in positions
    ensures Indexed(flat + [a], groups[positions[a.expert] := With(groups[positions[a.expert]], a)], positions)
  {
    hide Rows, GroupRows;
    var p := positions[a.expert];
    var groups' := groups[p := With(groups[p], a)];
    WithRows(groups[p], a);
    forall i | 0 <= i < |groups| ensures Holds(groups'[i], Rows(flat + [a], groups'[i].expert)) {
      RowsPush(flat, a, groups[i].expert);
    }
    forall b | b in flat + [a] ensures HasGroup(groups', b.expert) {
      if b.expert == a.expert {
        assert groups'[p].expert == b.expert;
      } else {
        var i :| 0 <= i < |groups| && groups[i].expert == b.expert;
        assert groups'[i].expert == b.expert;
      }
    }
  }

  lemma {:induction false} SingleRow(a: Assignment)
    ensures GroupRows(Group(a.expert, [a.token], [a.score])) == [a]
  {
  }

  lemma {:induction false} NoRows(flat: seq<Assignment>, groups: seq<Group>, e: ExpertId)
    requires Partitions(flat, groups) && forall i | 0 <= i < |groups| :: groups[i].expert != e
    ensures Rows(flat, e) == []
  {
    RowsOccur(flat, e);
    assert forall b | b in flat :: HasGroup(groups, b.expert);
  }

  lemma {:induction false} OpenKeeps(flat: seq<Assignment>, groups: seq<Group>, positions: map<ExpertId, nat>,
                                     a: Assignment)
    requires Indexed(flat, groups, positions) && a.expert !in positions
    ensures Indexed(flat + [a], groups + [Group(a.expert, [a.token], [a.score])], positions[a.expert := |groups|])
  {
    hide Rows, GroupRows;
    var entry := Group(a.expert, [a.token], [a.score]);
    var groups' := groups + [entry];
    SingleRow(a);
    NoRows(flat, groups, a.expert);
    forall i | 0 <= i < |groups'| ensures Holds(groups'[i], Rows(flat + [a], groups'[i].expert)) {
      RowsPush(flat, a, groups'[i].expert);
    }
    forall b | b in flat + [a] ensures HasGroup(groups', b.expert) {
      if b.expert == a.expert {
        assert groups'[|groups|].expert == b.expert;
      } else {
        var i :| 0 <= i < |groups| && groups[i].expert == b.expert;
        assert groups'[i].expert == b.expert;
      }
    }
  }

  /** One assignment joins its expert's group, which is opened if need be. */
  method AddAssignment(ghost flat: seq<Assignment>, groups: seq<Group>, positions: map<ExpertId, nat>, a: Assignment)
    returns (groups': seq<Group>, positions': map<ExpertId, nat>)
    requires Indexed(flat, groups, positions)
    ensures Indexed(flat + [a], groups', positions')
  {
    groups', positions' := groups, positions;
    if a.expert !in positions {
      OpenKeeps(flat, groups, positions, a);
      positions' := positions'[a.expert := |groups|];
      groups' := groups' + [Group(a.expert, [], [])];
    } else {
      JoinKeeps(flat, groups, positions, a);
    }
    hide Indexed;
    var p := positions'[a.expert];
    groups' := groups'[p := With(groups'[p], a)];
    assert a.expert !in positions ==> groups'[|groups|] == Group(a.expert, [a.token], [a.score]);
    assert a.expert !in positions ==> groups' == groups + [Group(a.expert, [a.token], [a.score])];
  }

  lemma {:induction false} InsertionPoint(groups: seq<Group>, n: nat, sorted: seq<Group>, p: nat)
    requires forall i, j | 0 <= i < j < |groups| :: groups[i].expert != groups[j].expert
    requires n < |groups| && Sorted(sorted) && forall g :: g in sorted <==> g in groups[..n]
    requires p <= |sorted| && (p < |sorted| ==> sorted[p].expert >= groups[n].expert)
    ensures forall i | p <= i < |sorted| :: groups[n].expert < sorted[i].expert
  {
    if p < |sorted| {
      assert sorted[p] in groups[..n];
      var i :| 0 <= i < n && groups[..n][i] == sorted[p];
      assert groups[i].expert != groups[n].expert;
    }
  }

  /** The library sort of groups that differ in their experts. */
  method SortByExpert(groups: seq<Group>) returns (sorted: seq<Group>)
    requires forall i, j | 0 <= i < j < |groups| :: groups[i].expert != groups[j].expert
    ensures Sorted(sorted) && forall g :: g in sorted <==> g in groups
  {
    sorted := [];
    for n := 0 to |groups|
      invariant Sorted(sorted)
      invariant forall g :: g in sorted <==> g in groups[..n]
    {
      var p := 0;
      while p < |sorted| && sorted[p].expert < groups[n].expert
        invariant p <= |sorted| && forall i | 0 <= i < p :: sorted[i].expert < groups[n].expert
      {
        p := p + 1;
      }
      InsertionPoint(groups, n, sorted, p);
      sorted := Inserted(sorted, p, groups[n]);
      assert groups[..n + 1] == groups[..n] + [groups[n]];
    }
    assert groups[..|groups|] == groups;
  }

  function Inserted(sorted: seq<Group>, p: nat, g: Group): (r: seq<Group>)
    requires p <= |sorted| && Sorted(sorted)
    requires forall i | 0 <= i < p :: sorted[i].expert < g.expert
    requires forall i | p <= i < |sorted| :: g.expert < sorted[i].expert
    ensures Sorted(r) && forall x :: x in r <==> x == g || x in sorted
  {
    assert sorted == sorted[..p] + sorted[p..];
    sorted[..p] + [g] + sorted[p..]
  }

  lemma {:induction false} SortingKeeps(flat: seq<Assignment>, groups: seq<Group>, sorted: seq<Group>)
    requires Partitions(flat, groups) && Sorted(sorted)
    requires forall g :: g in sorted <==> g in groups
    ensures Grouped(flat, sorted)
  {
    hide Rows, GroupRows;
    forall a | a in flat ensures HasGroup(sorted, a.expert) {
      var i :| 0 <= i < |groups| && groups[i].expert == a.expert;
      assert groups[i] in sorted;
    }
    forall i | 0 <= i < |sorted|
      ensures sorted[i].tokens != [] && Holds(sorted[i], Rows(flat, sorted[i].expert))
    {
      assert sorted[i] in groups;
    }
  }

  lemma {:induction false} StartIndexed()
    ensures Indexed(Flatten([]), [], map[])
  {
  }

  method FinishGroups(ghost flat: seq<Assignment>, groups: seq<Group>, ghost positions: map<ExpertId, nat>)
    returns (sorted: seq<Group>)
    requires Indexed(flat, groups, positions)
    ensures Grouped(flat, sorted)
  {
    sorted := SortByExpert(groups);
    SortingKeeps(flat, groups, sorted);
  }

  /** All assignments of one token, in rank order. */
  method AddToken(ghost flat: seq<Assignment>, groups: seq<Group>, positions: map<ExpertId, nat>, d: Decision, t: nat)
    returns (groups': seq<Group>, positions': map<ExpertId, nat>)
    requires Indexed(flat, groups, positions) && |d.ids| == |d.scores|
    ensures Indexed(flat + OfToken(d, t), groups', positions')
  {
    hide Indexed;
    groups', positions' := groups, positions;
    ghost var own := OfToken(d, t);
    assert flat + own[..0] == flat;
    for rank := 0 to |d.ids|
      invariant Indexed(flat + own[..rank], groups', positions')
    {
      groups', positions' := AddAssignment(
        flat + own[..rank], groups', positions', Assignment(d.ids[rank], t, d.scores[rank]));
      assert flat + own[..rank] + [own[rank]] == flat + own[..rank + 1];
    }
    assert own[..|d.ids|] == own;
  }

  /** What the router owes for one row of the hidden states. */
  ghost function RouteOf(exp: real -> real, hidden: seq<real>, tokenCount: nat, hiddenSize: nat, weights: seq<real>,
                         config: RouterConfig, t: nat): (r: Result<Decision, RouterError>)
    requires IsExp(exp) && config.Valid() && t < tokenCount
    requires |hidden| == tokenCount * hiddenSize && |weights| == hiddenSize * config.expertCount
    ensures r.Ok? ==> |r.value.ids| == |r.value.scores| == config.topK && Distinct(r.value.ids)
  {
    var logits := Product(Row(hidden, tokenCount, hiddenSize, t), weights, config.expertCount);
    RouteMeans(exp, logits, config);
    var r := Route(exp, logits, config);
    assert r.Ok? ==> Distinct(r.value.ids) by {
      if r.Ok? { TopKDistinct(logits, config.topK, r.value.ids); }
    }
    r
  }

  method RouteRow(exp: real -> real, hidden: seq<real>, tokenCount: nat, hiddenSize: nat, weights: seq<real>,
                  config: RouterConfig, t: nat)
    returns (r: Result<Decision, RouterError>)
    requires IsExp(exp) && config.Valid() && t < tokenCount
    requires |hidden| == tokenCount * hiddenSize && |weights| == hiddenSize * config.expertCount
    ensures r == RouteOf(exp, hidden, tokenCount, hiddenSize, weights, config, t)
  {
    r := RouteToken(exp, Row(hidden, tokenCount, hiddenSize, t), weights, config);
  }

  /** The runtime's batch: every token routed, its assignments grouped on the way. */
  method RouteBatch(exp: real -> real, hidden: seq<real>, tokenCount: nat, hiddenSize: nat, weights: seq<real>,
                    config: RouterConfig)
    returns (r: Result<Batch, RouterError>)
    requires IsExp(exp) && config.Valid()
    requires |hidden| == tokenCount * hiddenSize && |weights| == hiddenSize * config.expertCount
    ensures r.Ok? <==> forall t | 0 <= t < tokenCount ::
      RouteOf(exp, hidden, tokenCount, hiddenSize, weights, config, t).Ok?
    ensures r.Ok? ==>
      && |r.value.tokens| == tokenCount
      && (forall t | 0 <= t < tokenCount ::
            RouteOf(exp, hidden, tokenCount, hiddenSize, weights, config, t) == Ok(r.value.tokens[t]))
      && Even(r.value.tokens)
      && Grouped(Flatten(r.value.tokens), r.value.groups)
  {
    hide Indexed, Grouped, Flatten, OfToken, RouteOf;
    StartIndexed();
    var tokens: seq<Decision> := [];
    var groups: seq<Group>, positions: map<ExpertId, nat> := [], map[];
    for t := 0 to tokenCount
      invariant |tokens| == t && Even(tokens)
      invariant forall u | 0 <= u < t ::
        RouteOf(exp, hidden, tokenCount, hiddenSize, weights, config, u) == Ok(tokens[u])
      invariant Indexed(Flatten(tokens), groups, positions)
    {
      var decision := RouteRow(exp, hidden, tokenCount, hiddenSize, weights, config, t);
      if decision.Err? {
        return Err(decision.error);
      }
      var d := decision.value;
      groups, positions := AddToken(Flatten(tokens), groups, positions, d, t);
      FlattenPush(tokens, d);
      tokens := tokens + [d];
    }
    var sorted := FinishGroups(Flatten(tokens), groups, positions);
    return Ok(Batch(tokens, sorted));
  }

  /** The router's entry: a bad configuration or weights of another shape are
      refused; otherwise the batch fails exactly if some token's route does. */
  method RouteChecked(exp: real -> real, hidden: seq<real>, tokenCount: nat, hiddenSize: nat, weights: seq<real>,
                      rows: nat, columns: nat, config: RouterConfig)
    returns (r: Result<Batch, RouterError>)
    requires IsExp(exp) && |hidden| == tokenCount * hiddenSize && |weights| == rows * columns
    ensures !config.Valid() ==> r == Err(InvalidConfig)
    ensures config.Valid() && (hiddenSize != rows || columns != config.expertCount) ==> r == Err(InvalidDimensions)
    ensures config.Valid() && hiddenSize == rows && columns == config.expertCount ==>
      && (r.Ok? <==> forall t | 0 <= t < tokenCount ::
            RouteOf(exp, hidden, tokenCount, hiddenSize, weights, config, t).Ok?)
      && (r.Ok? ==>
            && |r.value.tokens| == tokenCount
            && (forall t | 0 <= t < tokenCount ::
                  RouteOf(exp, hidden, tokenCount, hiddenSize, weights, config, t) == Ok(r.value.tokens[t]))
            && Even(r.value.tokens)
            && Grouped(Flatten(r.value.tokens), r.value.groups))
  {
    if !config.Valid() {
      return Err(InvalidConfig);
    }
    if hiddenSize != rows || columns != config.expertCount {
      return Err(InvalidDimensions);
    }
    hide RouteOf, Grouped, Flatten;
    r := RouteBatch(exp, hidden, tokenCount, hiddenSize, weights, config);
  }

  /** Where a token's ranks start in a flat selection of k ranks a token. */
  function Offset(t: nat, k: nat): nat {
    t * k
  }

  /** The device's flat selection: token t's rank r stands at t * k + r. */
  predicate IsSelection(ids: seq<ExpertId>, scores: seq<real>, k: nat, ds: seq<Decision>) {
    && |ids| == |scores| == Offset(|ds|, k)
    && forall t | 0 <= t < |ds| :: Matches(ids, scores, k, t, ds[t])
  }

  predicate Matches(ids: seq<ExpertId>, scores: seq<real>, k: nat, t: nat, d: Decision) {
    Offset(t, k) + k <= |ids| && Offset(t, k) + k <= |scores|
    && d.ids == ids[Offset(t, k)..Offset(t, k) + k] && d.scores == scores[Offset(t, k)..Offset(t, k) + k]
  }

  /** The inner loop over one token's ranks: None where it meets an invalid expert. */
  method TakeSelection(ghost flat: seq<Assignment>, groups: seq<Group>, positions: map<ExpertId, nat>, experts: nat,
                       t: nat, ids: seq<ExpertId>, scores: seq<real>)
    returns (d: Option<Decision>, groups': seq<Group>, positions': map<ExpertId, nat>)
    requires Indexed(flat, groups, positions) && |ids| == |scores|
    ensures d == None <==> exists i :: 0 <= i < |ids| && ids[i] >= experts
    ensures d.Some? ==> d.value == Decision(ids, scores) && Indexed(flat + OfToken(d.value, t), groups', positions')
  {
    hide Indexed;
    groups', positions' := groups, positions;
    var chosen := Decision([], []);
    ghost var own := OfToken(Decision(ids, scores), t);
    assert flat + own[..0] == flat;
    for rank := 0 to |ids|
      invariant chosen == Decision(ids[..rank], scores[..rank])
      invariant forall i | 0 <= i < rank :: ids[i] < experts
      invariant Indexed(flat + own[..rank], groups', positions')
    {
      if ids[rank] >= experts {
        return None, groups', positions';
      }
      chosen := Decision(chosen.ids + [ids[rank]], chosen.scores + [scores[rank]]);
      groups', positions' := AddAssignment(
        flat + own[..rank], groups', positions', Assignment(ids[rank], t, scores[rank]));
      assert flat + own[..rank] + [own[rank]] == flat + own[..rank + 1];
    }
    assert own[..|ids|] == own && chosen == Decision(ids, scores);
    d := Some(chosen);
  }

  lemma {:induction false} NextOffset(t: nat, tokenCount: nat, k: nat)
    requires t < tokenCount
    ensures Offset(0, k) == 0
    ensures Offset(t, k) + k == Offset(t + 1, k) <= Offset(tokenCount, k)
  {
  }

  /** The CUDA router's regrouping of a flat selection, with its checks. The
      selection of any decisions of k experts each, in whatever order they were
      computed, yields those decisions and the runtime's own groups. */
  method MakeDecision(tokenCount: nat, config: RouterConfig, ids: seq<ExpertId>, scores: seq<real>)
    returns (r: Result<Batch, RouterError>)
    requires config.Valid()
    ensures r == Err(SelectionOverflow) <==> Offset(tokenCount, config.topK) > Products.MAX64
    ensures r == Err(InvalidDimensions) <==>
      Offset(tokenCount, config.topK) <= Products.MAX64
      && (|ids| != Offset(tokenCount, config.topK) || |scores| != |ids|)
    ensures r == Err(InvalidExpert) <==>
      |ids| == |scores| == Offset(tokenCount, config.topK) <= Products.MAX64
      && exists i :: 0 <= i < |ids| && ids[i] >= config.expertCount
    ensures r.Err? ==> r.error == SelectionOverflow || r.error == InvalidDimensions || r.error == InvalidExpert
    ensures r.Ok? ==>
      && |r.value.tokens| == tokenCount
      && IsSelection(ids, scores, config.topK, r.value.tokens)
      && Even(r.value.tokens)
      && Grouped(Flatten(r.value.tokens), r.value.groups)
  {
    var k := config.topK;
    Products.Overflow(tokenCount, k, Products.MAX64);
    if tokenCount > Products.MAX64 / k {
      return Err(SelectionOverflow);
    }
    if |ids| != Offset(tokenCount, k) || |scores| != |ids| {
      return Err(InvalidDimensions);
    }
    hide Indexed, Grouped, Flatten, OfToken, Offset;
    StartIndexed();
    assert Offset(0, k) == 0;
    var tokens: seq<Decision> := [];
    var groups: seq<Group>, positions: map<ExpertId, nat> := [], map[];
    var offset := 0;
    for t := 0 to tokenCount
      invariant offset == Offset(t, k) <= |ids|
      invariant |tokens| == t && Even(tokens)
      invariant forall u | 0 <= u < t :: Matches(ids, scores, k, u, tokens[u])
      invariant forall i | 0 <= i < offset :: ids[i] < config.expertCount
      invariant Indexed(Flatten(tokens), groups, positions)
    {
      NextOffset(t, tokenCount, k);
      var own := ids[offset..offset + k];
      assert forall i | offset <= i < offset + k :: ids[i] == own[i - offset];
      var d: Option<Decision>;
      d, groups, positions := TakeSelection(
        Flatten(tokens), groups, positions, config.expertCount, t, own, scores[offset..offset + k]);
      if d == None {
        return Err(InvalidExpert);
      }
      FlattenPush(tokens, d.value);
      tokens := tokens + [d.value];
      offset := offset + k;
    }
    assert IsSelection(ids, scores, k, tokens);
    var sorted := FinishGroups(Flatten(tokens), groups, positions);
    return Ok(Batch(tokens, sorted));
  }

  /** Both builders agree: regrouping the flat selection of a routed batch
      gives back the batch, tokens and groups alike. */
  lemma {:induction false} BuildersAgree(routed: Batch, regrouped: Batch, k: nat, ids: seq<ExpertId>, scores: seq<real>)
    requires Even(routed.tokens) && Grouped(Flatten(routed.tokens), routed.groups)
    requires Even(regrouped.tokens) && Grouped(Flatten(regrouped.tokens), regrouped.groups)
    requires |regrouped.tokens| == |routed.tokens|
    requires IsSelection(ids, scores, k, routed.tokens) && IsSelection(ids, scores, k, regrouped.tokens)
    ensures regrouped == routed
  {
    assert forall t | 0 <= t < |routed.tokens| ::
      Matches(ids, scores, k, t, routed.tokens[t]) && Matches(ids, scores, k, t, regrouped.tokens[t]);
    assert regrouped.tokens == routed.tokens;
    GroupedUnique(Flatten(routed.tokens), routed.groups, regrouped.groups);
  }
}
