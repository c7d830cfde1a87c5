/**
 The dynamic program that chooses chunk boundaries: a table of best rewards filled in place,
 a parent table, and a backtracking loop.
 */
module ClusterDp {
  import opened Grouping
  import opened GreedyGrouping

  /** A table entry: minus infinity, or a reachable reward. */
  datatype Score = NegInf | Fin(v: real)

  /** One call's data: token counts, similarities and bounds. */
  datatype Problem = Problem(lens: seq<nat>, sim: Matrix, lim: Limits) {
    predicate Valid() {
      Square(sim, |lens|)
    }

    predicate Allowed(j: nat, i: nat) {
      Fits(lens, lim, Group(j, i))
    }

    function Reward(j: nat, i: nat): real
      requires Valid() && j <= i <= |lens|
    {
      ChunkReward(sim, |lens|, j, i)
    }
  }

  /** Adding a reward to a score; minus infinity absorbs it. */
  function Plus(s: Score, r: real): Score {
    if s.NegInf? then NegInf else Fin(s.v + r)
  }

  predicate Greater(s: Score, t: Score) {
    s.Fin? && (t.NegInf? || s.v > t.v)
  }

  predicate AtLeast(s: Score, t: Score) {
    !Greater(t, s)
  }

  /** Entry i dominates every allowed last group that starts at lo or later. */
  ghost predicate Dominates(dp: seq<Score>, p: Problem, i: nat, lo: nat)
    requires p.Valid() && |dp| == |p.lens| + 1 && i <= |p.lens|
  {
    forall j :: lo <= j < i && p.Allowed(j, i) ==> AtLeast(dp[i], Plus(dp[j], p.Reward(j, i)))
  }

  /** Entry i is unreachable, or realised by the last group its parent names, which starts at lo or later. */
  ghost predicate Realised(dp: seq<Score>, parent: seq<int>, p: Problem, i: nat, lo: nat)
    requires p.Valid() && |dp| == |parent| == |p.lens| + 1 && i <= |p.lens|
  {
    if dp[i].NegInf? then parent[i] == -1
    else
      && lo <= parent[i] < i
      && p.Allowed(parent[i], i)
      && dp[parent[i]].Fin?
      && dp[i].v == dp[parent[i]].v + p.Reward(parent[i], i)
  }

  ghost predicate Filled(dp: seq<Score>, parent: seq<int>, p: Problem, upto: nat)
    requires p.Valid() && |dp| == |parent| == |p.lens| + 1 && upto <= |p.lens|
  {
    && dp[0] == Fin(0.0)
    && (forall i :: 1 <= i <= upto ==> Dominates(dp, p, i, 0))
    && (forall i :: 1 <= i <= upto ==> Realised(dp, parent, p, i, 0))
  }

  // ---------------------------------------------------------------- what a filled table means

  /** No admissible way to tile the first k segments beats entry k. */
  lemma {:induction false} TableIsUpperBound(dp: seq<Score>, parent: seq<int>, p: Problem, g: seq<Group>, k: nat)
    requires p.Valid() && |dp| == |parent| == |p.lens| + 1 && Filled(dp, parent, p, |p.lens|)
    requires k <= |p.lens| && Tiles(g, 0, k) && AllFit(g, p.lens, p.lim)
    ensures dp[k].Fin? && Total(g, p.sim, |p.lens|) <= dp[k].v
  {
    if g != [] {
      var last := g[|g| - 1];
      TableIsUpperBound(dp, parent, p, g[..|g| - 1], last.start);
      assert p.Allowed(last.start, last.end);
      assert Dominates(dp, p, k, 0);
    }
  }

  /** The grouping that the parent table describes for the first k segments. */
  ghost function Chain(dp: seq<Score>, parent: seq<int>, p: Problem, k: nat): (g: seq<Group>)
    requires p.Valid() && |dp| == |parent| == |p.lens| + 1 && Filled(dp, parent, p, |p.lens|)
    requires k <= |p.lens| && dp[k].Fin?
    decreases k
  {
    if k == 0 then []
    else
      assert Realised(dp, parent, p, k, 0);
      Chain(dp, parent, p, parent[k]) + [Group(parent[k], k)]
  }

  /** Entry k is attained by the grouping its parents describe, and that grouping is admissible so far. */
  lemma {:induction false} TableIsAttained(dp: seq<Score>, parent: seq<int>, p: Problem, k: nat)
    requires p.Valid() && |dp| == |parent| == |p.lens| + 1 && Filled(dp, parent, p, |p.lens|)
    requires k <= |p.lens| && dp[k].Fin?
    ensures
      var g := Chain(dp, parent, p, k);
      Tiles(g, 0, k) && AllFit(g, p.lens, p.lim) && Total(g, p.sim, |p.lens|) == dp[k].v
    decreases k
  {
    if k > 0 {
      assert Realised(dp, parent, p, k, 0);
      TableIsAttained(dp, parent, p, parent[k]);
      var g := Chain(dp, parent, p, k);
      assert g[..|g| - 1] == Chain(dp, parent, p, parent[k]);
    }
  }

  /** Entry n is minus infinity exactly when no admissible partition exists. */
  lemma UnreachableIffInfeasible(dp: seq<Score>, parent: seq<int>, p: Problem)
    requires p.Valid() && |dp| == |parent| == |p.lens| + 1 && Filled(dp, parent, p, |p.lens|)
    ensures dp[|p.lens|].NegInf? <==> !Feasible(p.lens, p.lim)
  {
    if dp[|p.lens|].Fin? {
      TableIsAttained(dp, parent, p, |p.lens|);
      assert Admissible(Chain(dp, parent, p, |p.lens|), p.lens, p.lim);
    }
    if Feasible(p.lens, p.lim) {
      var g :| Admissible(g, p.lens, p.lim);
      TableIsUpperBound(dp, parent, p, g, |p.lens|);
    }
  }

  // ---------------------------------------------------------------- filling the table

  /** Whether the candidate last group [j, i) replaces entry i. */
  predicate Improves(dp: seq<Score>, p: Problem, j: nat, i: nat)
    requires p.Valid() && |dp| == |p.lens| + 1 && j < i <= |p.lens|
  {
    p.Allowed(j, i) && Greater(Plus(dp[j], p.Reward(j, i)), dp[i])
  }

  method EvaluateChunkCandidate(dp: array<Score>, parent: array<int>, i: nat, j: nat, p: Problem)
    returns (shouldBreak: bool)
    requires p.Valid() && dp.Length == parent.Length == |p.lens| + 1 && j < i <= |p.lens|
    modifies dp, parent
    ensures shouldBreak <==> Tokens(p.lens, j, i) > p.lim.maxTokens
    ensures Improves(old(dp[..]), p, j, i) ==>
              && dp[..] == old(dp[..])[i := Plus(old(dp[j]), p.Reward(j, i))]
              && parent[..] == old(parent[..])[i := j]
    ensures !Improves(old(dp[..]), p, j, i) ==> dp[..] == old(dp[..]) && parent[..] == old(parent[..])
  {
    var n := |p.lens|;
    var chunkTokens := Tokens(p.lens, j, i);
    if chunkTokens > p.lim.maxTokens {
      return true;
    }
    if chunkTokens < p.lim.minTokens && i < n {
      if dp[j] != NegInf {
        return false;
      }
    }
    var chunkReward := p.Reward(j, i);
    var totalReward := Plus(dp[j], chunkReward);
    if Greater(totalReward, dp[i]) {
      dp[i] := totalReward;
      parent[i] := j;
    }
    return false;
  }

  /** Stopping at the first group over the maximum loses no allowed candidate. */
  lemma BreakIsLossless(p: Problem, j: nat, i: nat)
    requires j < i <= |p.lens| && Tokens(p.lens, j, i) > p.lim.maxTokens
    ensures forall k :: 0 <= k <= j ==> !p.Allowed(k, i)
  {
    forall k | 0 <= k <= j
      ensures !p.Allowed(k, i)
    {
      TokensGrow(p.lens, k, j, i);
    }
  }

  /** Writing entry i leaves the verdict on every earlier entry unchanged. */
  lemma FilledFrame(dp: seq<Score>, parent: seq<int>, dp': seq<Score>, parent': seq<int>, p: Problem, upto: nat)
    requires p.Valid() && |dp| == |parent| == |dp'| == |parent'| == |p.lens| + 1 && upto <= |p.lens|
    requires Filled(dp, parent, p, upto)
    requires forall k :: 0 <= k <= upto ==> dp'[k] == dp[k] && parent'[k] == parent[k]
    ensures Filled(dp', parent', p, upto)
  {
    forall i | 1 <= i <= upto
      ensures Dominates(dp', p, i, 0) && Realised(dp', parent', p, i, 0)
    {
      assert Dominates(dp, p, i, 0) && Realised(dp, parent, p, i, 0);
    }
  }

  method FillDpTable(dp: array<Score>, parent: array<int>, p: Problem)
    requires p.Valid() && dp.Length == parent.Length == |p.lens| + 1 && dp != parent as object
    requires dp[0] == Fin(0.0) && (forall i :: 1 <= i < dp.Length ==> dp[i] == NegInf)
    requires forall i :: 0 <= i < parent.Length ==> parent[i] == -1
    modifies dp, parent
    ensures Filled(dp[..], parent[..], p, |p.lens|)
  {
    var n := |p.lens|;
    ghost var d, q := dp[..], parent[..];
    for i := 1 to n + 1
      invariant dp[..] == d && parent[..] == q
      invariant Filled(d, q, p, i - 1)
      invariant forall k :: i <= k <= n ==> d[k] == NegInf && q[k] == -1
    {
      var j := i - 1;
      ghost var d0, q0 := d, q;
      while j >= 0
        invariant -1 <= j < i
        invariant dp[..] == d && parent[..] == q
        invariant forall k :: 0 <= k <= n && k != i ==> d[k] == d0[k] && q[k] == q0[k]
        invariant Dominates(d, p, i, j + 1) && Realised(d, q, p, i, j + 1)
      {
        var shouldBreak := EvaluateChunkCandidate(dp, parent, i, j, p);
        CandidateKeeps(d, q, dp[..], parent[..], p, j, i);
        d, q := dp[..], parent[..];
        if shouldBreak {
          BreakIsLossless(p, j, i);
          assert Dominates(d, p, i, 0) && Realised(d, q, p, i, 0);
          break;
        }
        j := j - 1;
      }
      FilledFrame(d0, q0, d, q, p, i - 1);
    }
  }

  /** One candidate extends the range of starts that entry i accounts for. */
  lemma CandidateKeeps(was: seq<Score>, parentWas: seq<int>, now: seq<Score>, parentNow: seq<int>, p: Problem, j: nat,
                       i: nat)
    requires p.Valid() && |was| == |parentWas| == |now| == |parentNow| == |p.lens| + 1 && j < i <= |p.lens|
    requires Dominates(was, p, i, j + 1) && Realised(was, parentWas, p, i, j + 1)
    requires if Improves(was, p, j, i)
             then now == was[i := Plus(was[j], p.Reward(j, i))] && parentNow == parentWas[i := j]
             else now == was && parentNow == parentWas
    ensures Dominates(now, p, i, j) && Realised(now, parentNow, p, i, j)
  {
    forall k | j <= k < i && p.Allowed(k, i)
      ensures AtLeast(now[i], Plus(now[k], p.Reward(k, i)))
    {
      if k > j {
        assert AtLeast(was[i], Plus(was[k], p.Reward(k, i)));
      }
    }
  }

  // ---------------------------------------------------------------- the optimiser

  function Reversed<T>(s: seq<T>): seq<T> {
    seq(|s|, i requires 0 <= i < |s| => s[|s| - 1 - i])
  }

  /** g is admissible and no admissible partition earns more. */
  ghost predicate Optimal(g: seq<Group>, p: Problem)
    requires p.Valid()
  {
    && Admissible(g, p.lens, p.lim)
    && forall h :: Admissible(h, p.lens, p.lim) ==> Total(h, p.sim, |p.lens|) <= Total(g, p.sim, |p.lens|)
  }

  /** The grouping that the parents describe earns the last entry, and nothing admissible earns more. */
  lemma {:induction false} ChainIsOptimal(dp: seq<Score>, parent: seq<int>, p: Problem)
    requires p.Valid() && |dp| == |parent| == |p.lens| + 1
    requires Filled(dp, parent, p, |p.lens|) && dp[|p.lens|].Fin?
    ensures Optimal(Chain(dp, parent, p, |p.lens|), p)
  {
    var n := |p.lens|;
    TableIsAttained(dp, parent, p, n);
    forall h | Admissible(h, p.lens, p.lim)
      ensures Total(h, p.sim, n) <= Total(Chain(dp, parent, p, n), p.sim, n)
    {
      TableIsUpperBound(dp, parent, p, h, n);
    }
  }

  /** Walking back from the last segment and reversing at the end; the check for a missing parent never fires. */
  method Backtrack(dp: array<Score>, parent: array<int>, p: Problem) returns (groupings: seq<Group>)
    requires p.Valid() && dp.Length == parent.Length == |p.lens| + 1
    requires Filled(dp[..], parent[..], p, |p.lens|) && dp[|p.lens|].Fin?
    ensures groupings == Chain(dp[..], parent[..], p, |p.lens|)
  {
    var n := |p.lens|;
    groupings := [];
    var current := n;
    ghost var d, q := dp[..], parent[..];
    while current > 0
      invariant 0 <= current <= n && d[current].Fin?
      invariant Chain(d, q, p, n) == Chain(d, q, p, current) + Reversed(groupings)
    {
      assert Realised(d, q, p, current, 0);
      var prev := parent[current];
      assert prev != -1;
      if prev == -1 {
        prev := 0;
      }
      ghost var was := groupings;
      groupings := groupings + [Group(prev, current)];
      assert Reversed(groupings) == [Group(prev, current)] + Reversed(was);
      current := prev;
    }
    groupings := Reversed(groupings);
  }

  /**
   The whole optimiser. With two or more segments it returns a reward-maximal admissible partition
   whenever one exists, and the greedy token grouping exactly when none does.
   */
  method DynamicProgrammingChunking(p: Problem) returns (groupings: seq<Group>)
    requires p.Valid()
    ensures |p.lens| == 0 ==> groupings == []
    ensures |p.lens| == 1 ==> groupings == [Group(0, 1)]
    ensures |p.lens| >= 2 && Feasible(p.lens, p.lim) ==> Optimal(groupings, p)
    ensures |p.lens| >= 2 && !Feasible(p.lens, p.lim) ==> GreedyCut(groupings, ByTokens(p.lens, p.lim.maxTokens))
  {
    var n := |p.lens|;
    if n == 0 { return []; }
    if n == 1 { return [Group(0, 1)]; }
    var dp := new Score[n + 1](_ => NegInf);
    var parent := new int[n + 1](_ => -1);
    dp[0] := Fin(0.0);
    FillDpTable(dp, parent, p);
    UnreachableIffInfeasible(dp[..], parent[..], p);
    if dp[n] == NegInf {
      groupings := GreedyFallbackChunking(p.lens, p.lim.maxTokens);
      return;
    }
    groupings := Backtrack(dp, parent, p);
    ChainIsOptimal(dp[..], parent[..], p);
  }
}
