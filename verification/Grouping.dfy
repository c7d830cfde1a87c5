/** Groupings of consecutive segments, their token counts and their semantic reward. */
module Grouping {

  /** Segments [start, end) of one chunk. */
  datatype Group = Group(start: nat, end: nat)

  /** The token bounds of one chunk. The service validates neither sign, so both are integers. */
  datatype Limits = Limits(maxTokens: int, minTokens: int)

  // ---------------------------------------------------------------- tokens

  /** Tokens in the first k segments. */
  function Cum(lens: seq<nat>, k: nat): nat
    requires k <= |lens|
  {
    if k == 0 then 0 else Cum(lens, k - 1) + lens[k - 1]
  }

  lemma {:induction false} CumMonotone(lens: seq<nat>, a: nat, b: nat)
    requires a <= b <= |lens|
    ensures Cum(lens, a) <= Cum(lens, b)
  {
    if a < b {
      CumMonotone(lens, a, b - 1);
    }
  }

  /** Tokens in segments [a, b). */
  function Tokens(lens: seq<nat>, a: nat, b: nat): nat
    requires a <= b <= |lens|
  {
    CumMonotone(lens, a, b);
    Cum(lens, b) - Cum(lens, a)
  }

  lemma TokensGrow(lens: seq<nat>, a: nat, b: nat, c: nat)
    requires a <= b <= c <= |lens|
    ensures Tokens(lens, b, c) <= Tokens(lens, a, c)
    ensures Tokens(lens, a, b) <= Tokens(lens, a, c)
  {
    CumMonotone(lens, a, b);
    CumMonotone(lens, b, c);
  }

  // ---------------------------------------------------------------- groupings

  /** g cuts [lo, hi) into consecutive non-empty groups. */
  ghost predicate Tiles(g: seq<Group>, lo: nat, hi: nat)
  {
    if g == [] then lo == hi
    else
      var last := g[|g| - 1];
      last.end == hi && lo <= last.start < hi && Tiles(g[..|g| - 1], lo, last.start)
  }

  /** Group i starts where the one before it ends. */
  predicate Follows(g: seq<Group>, i: nat)
    requires 0 < i < |g|
  {
    g[i - 1].end == g[i].start
  }

  lemma {:induction false} TilesBounds(g: seq<Group>, lo: nat, hi: nat)
    requires Tiles(g, lo, hi)
    ensures lo <= hi
    ensures forall i :: 0 <= i < |g| ==> lo <= g[i].start < g[i].end <= hi
    ensures forall i :: 0 < i < |g| ==> Follows(g, i)
    ensures g != [] ==> g[0].start == lo && g[|g| - 1].end == hi
  {
    if g != [] {
      var front := g[..|g| - 1];
      TilesBounds(front, lo, g[|g| - 1].start);
      forall i | 0 <= i < |g|
        ensures lo <= g[i].start < g[i].end <= hi
        ensures 0 < i ==> Follows(g, i)
      {
        if i < |front| {
          assert front[i] == g[i];
          if 0 < i { assert front[i - 1] == g[i - 1] && Follows(front, i); }
        } else if 0 < i {
          assert front[i - 1] == g[i - 1];
        }
      }
      if front != [] { assert g[0] == front[0]; }
    }
  }

  /** The bounds the optimiser enforces: the maximum always, the minimum on every group but the last. */
  predicate Fits(lens: seq<nat>, lim: Limits, g: Group)
  {
    && g.start < g.end <= |lens|
    && Tokens(lens, g.start, g.end) <= lim.maxTokens
    && (lim.minTokens <= Tokens(lens, g.start, g.end) || g.end == |lens|)
  }

  ghost predicate AllFit(g: seq<Group>, lens: seq<nat>, lim: Limits)
  {
    forall i :: 0 <= i < |g| ==> Fits(lens, lim, g[i])
  }

  /** A partition of all segments that meets the token bounds. */
  ghost predicate Admissible(g: seq<Group>, lens: seq<nat>, lim: Limits)
  {
    Tiles(g, 0, |lens|) && AllFit(g, lens, lim)
  }

  ghost predicate Feasible(lens: seq<nat>, lim: Limits)
  {
    exists g :: Admissible(g, lens, lim)
  }

  // ---------------------------------------------------------------- reward

  type Matrix = seq<seq<real>>

  predicate Square(sim: Matrix, n: nat)
  {
    |sim| == n && forall i :: 0 <= i < n ==> |sim[i]| == n
  }

  predicate Symmetric(sim: Matrix, n: nat)
    requires Square(sim, n)
  {
    forall i, j :: 0 <= i < n && 0 <= j < n ==> sim[i][j] == sim[j][i]
  }

  /** Sum of row i over columns [a, b). */
  function RowSum(sim: Matrix, n: nat, i: nat, a: nat, b: nat): real
    requires Square(sim, n) && i < n && a <= b <= n
    decreases b - a
  {
    if a == b then 0.0 else RowSum(sim, n, i, a, b - 1) + sim[i][b - 1]
  }

  /** Sum of column j over rows [a, b). */
  function ColSum(sim: Matrix, n: nat, j: nat, a: nat, b: nat): real
    requires Square(sim, n) && j < n && a <= b <= n
    decreases b - a
  {
    if a == b then 0.0 else ColSum(sim, n, j, a, b - 1) + sim[b - 1][j]
  }

  /** Sum of the block of rows [a, hi) and columns [a, b). */
  function BlockSum(sim: Matrix, n: nat, a: nat, hi: nat, b: nat): real
    requires Square(sim, n) && a <= hi <= n && a <= b <= n
    decreases hi - a
  {
    if a == hi then 0.0 else BlockSum(sim, n, a, hi - 1, b) + RowSum(sim, n, hi - 1, a, b)
  }

  function Trace(sim: Matrix, n: nat, a: nat, b: nat): real
    requires Square(sim, n) && a <= b <= n
    decreases b - a
  {
    if a == b then 0.0 else Trace(sim, n, a, b - 1) + sim[b - 1][b - 1]
  }

  /** The reward of grouping segments [a, b), computed as the service does: half the off-diagonal sum. */
  function ChunkReward(sim: Matrix, n: nat, a: nat, b: nat): real
    requires Square(sim, n) && a <= b <= n
  {
    if b <= a + 1 then 0.0
    else (BlockSum(sim, n, a, b, b) - Trace(sim, n, a, b)) / 2.0
  }

  /** The reward as it is described: every unordered pair of segments in the chunk, once. */
  function PairSum(sim: Matrix, n: nat, a: nat, b: nat): real
    requires Square(sim, n) && a <= b <= n
    decreases b - a
  {
    if a == b then 0.0 else PairSum(sim, n, a, b - 1) + ColSum(sim, n, b - 1, a, b - 1)
  }

  lemma {:induction false} BlockWiden(sim: Matrix, n: nat, a: nat, hi: nat, b: nat)
    requires Square(sim, n) && a <= hi <= n && a <= b < n
    ensures BlockSum(sim, n, a, hi, b + 1) == BlockSum(sim, n, a, hi, b) + ColSum(sim, n, b, a, hi)
    decreases hi - a
  {
    if a < hi {
      BlockWiden(sim, n, a, hi - 1, b);
    }
  }

  lemma {:induction false} RowIsCol(sim: Matrix, n: nat, k: nat, a: nat, b: nat)
    requires Square(sim, n) && Symmetric(sim, n) && k < n && a <= b <= n
    ensures RowSum(sim, n, k, a, b) == ColSum(sim, n, k, a, b)
    decreases b - a
  {
    if a < b {
      RowIsCol(sim, n, k, a, b - 1);
    }
  }

  lemma {:induction false} BlockIsPairs(sim: Matrix, n: nat, a: nat, b: nat)
    requires Square(sim, n) && Symmetric(sim, n) && a <= b <= n
    ensures BlockSum(sim, n, a, b, b) == PairSum(sim, n, a, b) + PairSum(sim, n, a, b) + Trace(sim, n, a, b)
    decreases b - a
  {
    if a < b {
      BlockIsPairs(sim, n, a, b - 1);
      BlockWiden(sim, n, a, b - 1, b - 1);
      RowIsCol(sim, n, b - 1, a, b - 1);
    }
  }

  /** On a symmetric similarity matrix the computed reward is the sum of the pairwise similarities. */
  lemma {:induction false} RewardIsPairwise(sim: Matrix, n: nat, a: nat, b: nat)
    requires Square(sim, n) && Symmetric(sim, n) && a <= b <= n
    ensures ChunkReward(sim, n, a, b) == PairSum(sim, n, a, b)
  {
    BlockIsPairs(sim, n, a, b);
    if b == a + 1 {
      assert PairSum(sim, n, a, b) == 0.0;
    }
  }

  /** Total reward of a grouping. */
  function Total(g: seq<Group>, sim: Matrix, n: nat): real
    requires Square(sim, n)
    requires forall i :: 0 <= i < |g| ==> g[i].start <= g[i].end <= n
  {
    if g == [] then 0.0
    else Total(g[..|g| - 1], sim, n) + ChunkReward(sim, n, g[|g| - 1].start, g[|g| - 1].end)
  }
}
