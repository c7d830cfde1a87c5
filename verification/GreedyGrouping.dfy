/** The two greedy groupings: by token count alone, and by adjacent similarity under token bounds. */
module GreedyGrouping {
  import opened Grouping

  /** Break before segment i of a group that starts at a, when the group would outgrow the maximum. */
  predicate TokenBreak(lens: seq<nat>, maxTokens: int, a: nat, i: nat)
    requires a < i < |lens|
  {
    Tokens(lens, a, i) + lens[i] > maxTokens
  }

  /** The same, or a dissimilar neighbour once the group has reached the minimum. */
  predicate SimilarityBreak(lens: seq<nat>, lim: Limits, adjacent: seq<real>, threshold: real, a: nat, i: nat)
    requires a < i < |lens| == |adjacent| + 1
  {
    || Tokens(lens, a, i) + lens[i] > lim.maxTokens
    || (adjacent[i - 1] < threshold && Tokens(lens, a, i) >= lim.minTokens)
  }

  /** A breaking rule together with the number of segments it is defined for. */
  datatype Rule =
    | ByTokens(lens: seq<nat>, maxTokens: int)
    | BySimilarity(lens: seq<nat>, lim: Limits, adjacent: seq<real>, threshold: real)
  {
    predicate Valid() {
      BySimilarity? ==> |lens| == |adjacent| + 1
    }

    predicate Breaks(a: nat, i: nat)
      requires Valid() && a < i < |lens|
    {
      match this
      case ByTokens(_, maxTokens) => TokenBreak(lens, maxTokens, a, i)
      case BySimilarity(_, lim, adjacent, threshold) => SimilarityBreak(lens, lim, adjacent, threshold, a, i)
    }
  }

  /** The rule refuses none of the segments after a and before b, in a group that starts at a. */
  ghost predicate Unbroken(rule: Rule, a: nat, b: nat)
    requires rule.Valid() && b <= |rule.lens|
  {
    forall i :: a < i < b ==> !rule.Breaks(a, i)
  }

  /** Every group runs exactly until the first segment its rule refuses. */
  ghost predicate GreedyRun(g: Group, rule: Rule)
    requires rule.Valid()
  {
    && g.start < g.end <= |rule.lens|
    && Unbroken(rule, g.start, g.end)
    && (g.end < |rule.lens| ==> rule.Breaks(g.start, g.end))
  }

  /** Greedy groups of the segments before k. */
  ghost predicate GreedyTo(g: seq<Group>, rule: Rule, k: nat)
    requires rule.Valid()
  {
    && Tiles(g, 0, k)
    && forall i :: 0 <= i < |g| ==> GreedyRun(g[i], rule)
  }

  ghost predicate GreedyCut(g: seq<Group>, rule: Rule)
    requires rule.Valid()
  {
    GreedyTo(g, rule, |rule.lens|)
  }

  lemma AddRun(g: seq<Group>, rule: Rule, a: nat, b: nat)
    requires rule.Valid() && GreedyTo(g, rule, a) && a < b <= |rule.lens|
    requires Unbroken(rule, a, b) && (b < |rule.lens| ==> rule.Breaks(a, b))
    ensures GreedyTo(g + [Group(a, b)], rule, b)
  {
    assert (g + [Group(a, b)])[..|g|] == g;
  }

  /** A group ends exactly before a segment that is refused, with none refused inside. */
  ghost predicate EndsWhere(g: Group, n: nat, refused: (nat, nat) -> bool) {
    forall i :: g.start < i <= g.end && i < n ==> (i == g.end <==> refused(g.start, i))
  }

  ghost predicate AllEndWhere(g: seq<Group>, n: nat, refused: (nat, nat) -> bool) {
    Tiles(g, 0, n) && forall k :: 0 <= k < |g| ==> EndsWhere(g[k], n, refused)
  }

  lemma CutIff(g: seq<Group>, rule: Rule, refused: (nat, nat) -> bool)
    requires rule.Valid()
    requires forall a, i :: 0 <= a < i < |rule.lens| ==> (rule.Breaks(a, i) <==> refused(a, i))
    ensures GreedyCut(g, rule) <==> AllEndWhere(g, |rule.lens|, refused)
  {
    if Tiles(g, 0, |rule.lens|) {
      TilesBounds(g, 0, |rule.lens|);
      forall k | 0 <= k < |g|
        ensures GreedyRun(g[k], rule) <==> EndsWhere(g[k], |rule.lens|, refused)
      {
        var a, b := g[k].start, g[k].end;
        if EndsWhere(g[k], |rule.lens|, refused) {
          assert b < |rule.lens| ==> (refused(a, b) <==> rule.Breaks(a, b));
        }
      }
    }
  }

  /** A group of the token cut ends exactly before the first segment that would take it over the maximum. */
  lemma TokenCutIff(g: seq<Group>, lens: seq<nat>, maxTokens: int, refused: (nat, nat) -> bool)
    requires forall a, i :: 0 <= a < i < |lens| ==> (refused(a, i) <==> Tokens(lens, a, i) + lens[i] > maxTokens)
    ensures GreedyCut(g, ByTokens(lens, maxTokens)) <==> AllEndWhere(g, |lens|, refused)
  {
    CutIff(g, ByTokens(lens, maxTokens), refused);
  }

  /**
   A group of the similarity cut ends exactly before the first segment that would take it over the maximum or, once it
   has the minimum, is less similar to the segment before it than the threshold.
   */
  lemma SimilarityCutIff(g: seq<Group>, lens: seq<nat>, lim: Limits, adjacent: seq<real>, threshold: real,
                         refused: (nat, nat) -> bool)
    requires |lens| == |adjacent| + 1
    requires forall a, i :: 0 <= a < i < |lens| ==>
               (refused(a, i) <==>
                  || Tokens(lens, a, i) + lens[i] > lim.maxTokens
                  || (lim.minTokens <= Tokens(lens, a, i) && adjacent[i - 1] < threshold))
    ensures GreedyCut(g, BySimilarity(lens, lim, adjacent, threshold)) <==> AllEndWhere(g, |lens|, refused)
  {
    CutIff(g, BySimilarity(lens, lim, adjacent, threshold), refused);
  }

  /** Only the last group ends where the segments end. */
  lemma {:induction false} NotYet(g: seq<Group>, k: nat, n: nat)
    requires Tiles(g, 0, n) && 0 < k < |g|
    ensures g[k - 1].end < n
  {
    TilesBounds(g, 0, n);
    assert Follows(g, k);
  }

  /** The greedy cut is unique, so GreedyCut determines the result of both greedy loops. */
  lemma GreedyCutUnique(g: seq<Group>, h: seq<Group>, rule: Rule)
    requires rule.Valid() && GreedyCut(g, rule) && GreedyCut(h, rule)
    ensures g == h
  {
    TilesBounds(g, 0, |rule.lens|);
    TilesBounds(h, 0, |rule.lens|);
    var k := 0;
    while k < |g| && k < |h|
      invariant k <= |g| && k <= |h|
      invariant g[..k] == h[..k]
      invariant k > 0 ==> g[k - 1].end == h[k - 1].end
    {
      if k > 0 { assert Follows(g, k) && Follows(h, k); }
      assert g[k].start == h[k].start;
      assert g[k].end == h[k].end;
      assert g[..k + 1] == g[..k] + [g[k]];
      assert h[..k + 1] == h[..k] + [h[k]];
      k := k + 1;
    }
    if 0 < k < |g| { NotYet(g, k, |rule.lens|); }
    if 0 < k < |h| { NotYet(h, k, |rule.lens|); }
    assert |g| == k == |h|;
    assert g == g[..k] && h == h[..k];
  }

  /** Either greedy rule keeps every group within the maximum, except a single oversized segment. */
  lemma GreedyRunBound(g: Group, rule: Rule, maxTokens: int)
    requires rule.Valid() && GreedyRun(g, rule)
    requires rule.ByTokens? ==> maxTokens == rule.maxTokens
    requires rule.BySimilarity? ==> maxTokens == rule.lim.maxTokens
    ensures g.end == g.start + 1 || Tokens(rule.lens, g.start, g.end) <= maxTokens
  {
    if g.end > g.start + 1 {
      assert !rule.Breaks(g.start, g.end - 1);
    }
  }

  method GreedyFallbackChunking(lens: seq<nat>, maxTokens: int) returns (groupings: seq<Group>)
    ensures GreedyCut(groupings, ByTokens(lens, maxTokens))
  {
    groupings := [];
    var currentStart, currentTokens := 0, 0;
    ghost var rule := ByTokens(lens, maxTokens);
    for i := 0 to |lens|
      invariant currentStart <= i
      invariant i > 0 ==> currentStart < i
      invariant currentTokens == Tokens(lens, currentStart, i)
      invariant GreedyTo(groupings, rule, currentStart)
      invariant Unbroken(rule, currentStart, i)
    {
      if currentTokens + lens[i] > maxTokens && currentStart < i {
        AddRun(groupings, rule, currentStart, i);
        groupings := groupings + [Group(currentStart, i)];
        currentStart := i;
        currentTokens := lens[i];
      } else {
        currentTokens := currentTokens + lens[i];
      }
    }
    if currentStart < |lens| {
      AddRun(groupings, rule, currentStart, |lens|);
      groupings := groupings + [Group(currentStart, |lens|)];
    }
  }

  method GreedyMergeBySimilarity(lens: seq<nat>, lim: Limits, adjacent: seq<real>, threshold: real)
    returns (groupings: seq<Group>)
    requires |lens| == |adjacent| + 1
    ensures GreedyCut(groupings, BySimilarity(lens, lim, adjacent, threshold))
  {
    groupings := [];
    var currentStart, currentTokens := 0, lens[0];
    ghost var rule := BySimilarity(lens, lim, adjacent, threshold);
    for i := 1 to |lens|
      invariant currentStart < i
      invariant currentTokens == Tokens(lens, currentStart, i)
      invariant GreedyTo(groupings, rule, currentStart)
      invariant Unbroken(rule, currentStart, i)
    {
      var tokensIfMerged := currentTokens + lens[i];
      var isLowSimilarity := adjacent[i - 1] < threshold;
      var exceedsMax := tokensIfMerged > lim.maxTokens;
      var shouldBreak := exceedsMax || (isLowSimilarity && currentTokens >= lim.minTokens);
      if shouldBreak && currentStart < i {
        AddRun(groupings, rule, currentStart, i);
        groupings := groupings + [Group(currentStart, i)];
        currentStart := i;
        currentTokens := lens[i];
      } else {
        currentTokens := tokensIfMerged;
      }
    }
    if currentStart < |lens| {
      AddRun(groupings, rule, currentStart, |lens|);
      groupings := groupings + [Group(currentStart, |lens|)];
    }
  }
}
