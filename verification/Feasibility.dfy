/** When the optimiser can meet its bounds at all, as a condition on the configured sizes. */
module Feasibility {
  import opened Grouping

  predicate AtMost(lens: seq<nat>, s: nat) {
    forall i :: 0 <= i < |lens| ==> lens[i] <= s
  }

  /** The configuration leaves room for one segment on top of an almost-full minimum. */
  predicate RoomForOneMore(lim: Limits, s: nat) {
    s <= lim.maxTokens && (lim.minTokens <= 0 || lim.minTokens + s <= lim.maxTokens + 1)
  }

  /** Closing a group as soon as it reaches the minimum is an admissible partition. */
  lemma FeasibleWithRoom(lens: seq<nat>, lim: Limits, s: nat)
    requires AtMost(lens, s) && RoomForOneMore(lim, s)
    ensures Feasible(lens, lim)
  {
    var g: seq<Group> := [];
    var open := 0;
    for k := 0 to |lens|
      invariant open <= k
      invariant Tiles(g, 0, open) && AllFit(g, lens, lim)
      invariant open < k ==> Tokens(lens, open, k) < lim.minTokens
    {
      if lim.minTokens <= Tokens(lens, open, k + 1) {
        var g' := g + [Group(open, k + 1)];
        assert g'[..|g'| - 1] == g;
        assert Tokens(lens, open, k + 1) == Tokens(lens, open, k) + lens[k];
        g, open := g', k + 1;
      }
    }
    if open < |lens| {
      var g' := g + [Group(open, |lens|)];
      assert g'[..|g'| - 1] == g;
      g := g';
    }
    assert Admissible(g, lens, lim);
  }

  /** No segment is empty or over the size, and none fits together with the next. */
  predicate Unmergeable(lens: seq<nat>, size: int) {
    && (forall i :: 0 <= i < |lens| ==> 1 <= lens[i] <= size)
    && (forall i :: 0 < i < |lens| ==> TooLargeWith(lens, i, size))
  }

  predicate TooLargeWith(lens: seq<nat>, i: nat, size: int)
    requires 0 < i < |lens|
  {
    lens[i - 1] + lens[i] > size
  }

  // ---------------------------------------------------------------- sizes without a partition

  /** m tokens in full segments of s and, if any are left, one more. */
  function Filled(m: nat, s: nat): (lens: seq<nat>)
    requires s >= 1
    ensures Cum(lens, |lens|) == m
    ensures forall i :: 0 <= i < |lens| ==> 1 <= lens[i] <= s
    ensures forall i :: 0 <= i < |lens| - 1 ==> lens[i] == s
    decreases m
  {
    if m == 0 then []
    else if m <= s then
      assert Cum([m], 0) == 0;
      [m]
    else
      var rest := Filled(m - s, s);
      CumCons(s, rest, |rest|);
      [s] + rest
  }

  lemma {:induction false} CumCons(x: nat, lens: seq<nat>, k: nat)
    requires k <= |lens|
    ensures Cum([x] + lens, k + 1) == x + Cum(lens, k)
  {
    if k > 0 { CumCons(x, lens, k - 1); } else { assert Cum([x] + lens, 0) == 0; }
  }

  lemma {:induction false} CumPrefix(lens: seq<nat>, more: seq<nat>, k: nat)
    requires k <= |lens|
    ensures Cum(lens + more, k) == Cum(lens, k)
  {
    if k > 0 { CumPrefix(lens, more, k - 1); }
  }

  /** Without room, sizes that the splitter can yield and no grouping fits. */
  lemma InfeasibleWithoutRoom(lim: Limits, s: nat) returns (lens: seq<nat>)
    requires s >= 1 && !RoomForOneMore(lim, s)
    ensures |lens| >= 2 && Unmergeable(lens, s) && !Feasible(lens, lim)
  {
    var m: nat := if s > lim.maxTokens then 0 else lim.minTokens - 1;
    var filled := Filled(m, s);
    lens := filled + [s, 1];
    forall i | 0 < i < |lens|
      ensures TooLargeWith(lens, i, s)
    {
      assert i - 1 < |filled| - 1 ==> lens[i - 1] == filled[i - 1];
    }
    JumpsOver(lim, filled, s, lens);
    FirstGroupFits(lens, lim);
  }

  /** Up to the filled part groups stay below the minimum, and with one more segment they are over the maximum. */
  lemma {:induction false} JumpsOver(lim: Limits, filled: seq<nat>, s: nat, lens: seq<nat>)
    requires lens == filled + [s, 1] && Cum(filled, |filled|) + s > lim.maxTokens
    requires filled != [] ==> Cum(filled, |filled|) < lim.minTokens
    ensures forall k :: 0 < k <= |lens| ==> !Fits(lens, lim, Group(0, k))
  {
    var n := |filled|;
    CumPrefix(filled, [s, 1], n);
    assert lens[n] == s && Cum(lens, n + 1) == Cum(filled, n) + s;
    forall k | 0 < k <= |lens|
      ensures !Fits(lens, lim, Group(0, k))
    {
      if k <= n {
        TokensGrow(lens, 0, k, n);
      } else {
        TokensGrow(lens, 0, n + 1, k);
      }
    }
  }

  lemma FirstGroupFits(lens: seq<nat>, lim: Limits)
    requires lens != [] && forall k :: 0 < k <= |lens| ==> !Fits(lens, lim, Group(0, k))
    ensures !Feasible(lens, lim)
  {
    forall g: seq<Group> | Tiles(g, 0, |lens|)
      ensures !Admissible(g, lens, lim)
    {
      TilesBounds(g, 0, |lens|);
      assert g[0] == Group(0, g[0].end);
      assert !Fits(lens, lim, g[0]);
    }
  }

  /**
   Every list of two or more segments of at most s tokens can be partitioned exactly when that room exists, and so can
   every one that leaves no two neighbours to merge.
   */
  lemma FeasibleIffRoom(lim: Limits, s: nat)
    requires s >= 1
    ensures (forall lens :: |lens| >= 2 && AtMost(lens, s) ==> Feasible(lens, lim)) <==> RoomForOneMore(lim, s)
    ensures (forall lens :: |lens| >= 2 && Unmergeable(lens, s) ==> Feasible(lens, lim)) <==> RoomForOneMore(lim, s)
  {
    if RoomForOneMore(lim, s) {
      forall lens | |lens| >= 2 && AtMost(lens, s)
        ensures Feasible(lens, lim)
      {
        FeasibleWithRoom(lens, lim, s);
      }
      assert forall lens :: Unmergeable(lens, s) ==> AtMost(lens, s);
    } else {
      var lens := InfeasibleWithoutRoom(lim, s);
      assert AtMost(lens, s);
    }
  }
}
