/** From segments to chunks: every path of the chunking service on text whose offsets must survive. */
module ChunkResults {
  import opened Options
  import opened Seqs
  import opened Words
  import opened Grouping
  import opened GreedyGrouping
  import opened ClusterDp
  import opened Feasibility
  import Splitter

  datatype Strategy = Single | Dp | GreedyToken | GreedySemantic

  datatype ChunkResult = ChunkResult(
    text: string,
    start: nat,
    end: nat,
    tokenCount: nat,
    segments: Group,
    strategy: Strategy,
    degraded: bool,
    verbatim: bool)

  /** A resolved strategy: the token bounds and the segment size. */
  datatype Params = Params(lim: Limits, initialSegmentTokens: int)

  /** The checks a strategy must pass, and the segment size the splitter needs to terminate. */
  predicate Resolved(params: Params) {
    && params.initialSegmentTokens <= params.lim.maxTokens
    && params.lim.minTokens <= params.lim.maxTokens
    && params.initialSegmentTokens >= 1
  }

  const CLUSTER_SEMANTIC_1 := Params(Limits(400, 50), 50)

  /** What the embedding service yields for the segments, or nothing on an error or a count mismatch. */
  datatype Embeddings = Unavailable | Vectors(sim: Matrix, adjacent: seq<real>, threshold: real)

  function Usable(e: Embeddings, n: nat): (r: Embeddings)
    ensures r.Vectors? ==> Square(r.sim, n) && |r.adjacent| + 1 == n
  {
    if e.Vectors? && Square(e.sim, n) && |e.adjacent| + 1 == n then e else Unavailable
  }

  // ---------------------------------------------------------------- groups of spans

  function Lengths(spans: seq<Splitter.Span>): (lens: seq<nat>) {
    seq(|spans|, i requires 0 <= i < |spans| => Count(spans[i].text))
  }

  /** The source characters that a group of segments covers. */
  function Slice(spans: seq<Splitter.Span>, g: Group, source: string): string
    requires g.start < g.end <= |spans|
    requires spans[g.start].start <= spans[g.end - 1].end <= |source|
  {
    source[spans[g.start].start..spans[g.end - 1].end]
  }

  lemma {:induction false} SpansOrdered(spans: seq<Splitter.Span>, source: string, a: nat, b: nat)
    requires Splitter.Covers(spans, source) && a < b <= |spans|
    ensures spans[a].start < spans[b - 1].end <= |source|
    ensures a < b - 1 ==> spans[a].end <= spans[b - 1].start
  {
    if a < b - 1 {
      SpansOrdered(spans, source, a, b - 1);
      assert Splitter.Meets(spans, b - 1);
    }
  }

  lemma SliceJoin(source: string, lo: nat, mid: nat, hi: nat)
    requires lo <= mid <= hi <= |source|
    ensures source[lo..hi] == source[lo..mid] + source[mid..hi]
  {
  }

  /** A span begins where the one before it ends, and has the text between its ends. */
  lemma SpanMeets(spans: seq<Splitter.Span>, source: string, k: nat)
    requires Splitter.Covers(spans, source) && 0 < k < |spans|
    ensures spans[k - 1].end == spans[k].start <= spans[k].end <= |source|
    ensures spans[k].text == source[spans[k].start..spans[k].end]
  {
    assert Splitter.Meets(spans, k);
  }

  /** A measure that joining never makes more. */
  ghost predicate Subadditive(measure: string -> nat) {
    forall s, t :: measure(s + t) <= measure(s) + measure(t)
  }

  /** The characters from span a to the end of span b measure no more than the spans together. */
  lemma {:induction false} StretchMeasure(spans: seq<Splitter.Span>, source: string, a: nat, b: nat, end: nat,
                                          measure: string -> nat, lens: seq<nat>)
    requires Splitter.Covers(spans, source) && a <= b < |spans| && end == spans[b].end && Subadditive(measure)
    requires |lens| == |spans| && forall i :: 0 <= i < |spans| ==> lens[i] == measure(spans[i].text)
    ensures spans[a].start <= end <= |source|
    ensures measure(source[spans[a].start..end]) <= Tokens(lens, a, b + 1)
  {
    if a < b {
      var mid := spans[b].start;
      SpanMeets(spans, source, b);
      StretchMeasure(spans, source, a, b - 1, mid, measure, lens);
      SliceJoin(source, spans[a].start, mid, end);
    }
  }

  /** A merged slice never has more words than its segments together. */
  lemma SliceWords(spans: seq<Splitter.Span>, source: string, a: nat, b: nat)
    requires Splitter.Covers(spans, source) && a < b <= |spans|
    ensures spans[a].start <= spans[b - 1].end <= |source|
    ensures Count(Slice(spans, Group(a, b), source)) <= Tokens(Lengths(spans), a, b)
  {
    forall s, t
      ensures Count(s + t) <= Count(s) + Count(t)
    {
      CountAppend(s, t);
    }
    StretchMeasure(spans, source, a, b - 1, spans[b - 1].end, Count, Lengths(spans));
  }

  // ---------------------------------------------------------------- building results

  ghost predicate InRange(groupings: seq<Group>, n: nat) {
    forall i :: 0 <= i < |groupings| ==> groupings[i].start < groupings[i].end <= n
  }

  /** The chunk of one group, or nothing when the group is all white space. */
  ghost function ChunkOf(spans: seq<Splitter.Span>, g: Group, source: string): seq<ChunkResult>
    requires Splitter.Covers(spans, source) && g.start < g.end <= |spans|
  {
    SpansOrdered(spans, source, g.start, g.end);
    PieceOf(Slice(spans, g, source), spans[g.start].start, spans[g.end - 1].end, g)
  }

  /** What each group contributes. */
  ghost function Pieces(spans: seq<Splitter.Span>, groupings: seq<Group>, source: string): seq<seq<ChunkResult>>
    requires Splitter.Covers(spans, source) && InRange(groupings, |spans|)
  {
    seq(|groupings|, i requires 0 <= i < |groupings| => ChunkOf(spans, groupings[i], source))
  }

  /** The first k pieces, one after the other. */
  ghost function Concat(pieces: seq<seq<ChunkResult>>, k: nat): seq<ChunkResult>
    requires k <= |pieces|
  {
    if k == 0 then [] else Concat(pieces, k - 1) + pieces[k - 1]
  }

  /** The chunks of all groups, in order. */
  ghost function Built(spans: seq<Splitter.Span>, groupings: seq<Group>, source: string): seq<ChunkResult>
    requires Splitter.Covers(spans, source) && InRange(groupings, |spans|)
  {
    Concat(Pieces(spans, groupings, source), |groupings|)
  }

  lemma ChunkIs(spans: seq<Splitter.Span>, g: Group, source: string)
    requires Splitter.Covers(spans, source) && g.start < g.end <= |spans|
    ensures spans[g.start].start <= spans[g.end - 1].end <= |source|
    ensures var lo, hi := spans[g.start].start, spans[g.end - 1].end;
            ChunkOf(spans, g, source) == PieceOf(source[lo..hi], lo, hi, g)
  {
    SpansOrdered(spans, source, g.start, g.end);
  }

  function PieceOf(text: string, lo: nat, hi: nat, g: Group): seq<ChunkResult> {
    if Blank(text) then [] else [ChunkResult(text, lo, hi, Count(text), g, Dp, false, true)]
  }

  method BuildChunkResults(spans: seq<Splitter.Span>, groupings: seq<Group>, source: string)
    returns (results: seq<ChunkResult>)
    requires Splitter.Covers(spans, source) && InRange(groupings, |spans|)
    ensures results == Built(spans, groupings, source)
  {
    results := [];
    ghost var pieces := Pieces(spans, groupings, source);
    for k := 0 to |groupings|
      invariant results == Concat(pieces, k)
    {
      results := BuildOne(spans, groupings[k], source, results);
    }
  }

  method BuildOne(spans: seq<Splitter.Span>, g: Group, source: string, before: seq<ChunkResult>)
    returns (results: seq<ChunkResult>)
    requires Splitter.Covers(spans, source) && g.start < g.end <= |spans|
    ensures results == before + ChunkOf(spans, g, source)
  {
    ChunkIs(spans, g, source);
    Units(before);
    var charStart := spans[g.start].start;
    var charEnd := spans[g.end - 1].end;
    var mergedText := source[charStart..charEnd];
    if Blank(mergedText) { return before; }
    var totalTokens := Count(mergedText);
    results := before + [ChunkResult(mergedText, charStart, charEnd, totalTokens, g, Dp, false, true)];
  }

  // ---------------------------------------------------------------- what every path promises

  /** One chunk: an exact non-blank slice of the source, its words counted, within the bound. */
  predicate ExactChunk(r: ChunkResult, source: string, maxTokens: int) {
    && r.start < r.end <= |source|
    && r.text == source[r.start..r.end]
    && !Blank(r.text)
    && r.tokenCount == Count(r.text) <= maxTokens
    && r.verbatim
  }

  /** Position p of the source lies in some chunk. */
  ghost predicate CoveredAt(results: seq<ChunkResult>, p: nat) {
    exists i :: 0 <= i < |results| && results[i].start <= p < results[i].end
  }

  /** Position p is white space, or some chunk holds it. */
  ghost predicate Kept(results: seq<ChunkResult>, source: string, p: nat)
    requires p < |source|
  {
    IsSpace(source[p]) || CoveredAt(results, p)
  }

  /** Chunk i starts no earlier than the one before it ends. */
  predicate After(results: seq<ChunkResult>, i: nat)
    requires 0 < i < |results|
  {
    results[i - 1].end <= results[i].start
  }

  /** Ordered, disjoint, exact chunks that together hold every character that is not white space. */
  ghost predicate Faithful(results: seq<ChunkResult>, source: string, maxTokens: int) {
    && (forall i :: 0 <= i < |results| ==> ExactChunk(results[i], source, maxTokens))
    && (forall i :: 0 < i < |results| ==> After(results, i))
    && (forall p :: 0 <= p < |source| ==> Kept(results, source, p))
  }

  /** Every group keeps to the maximum, or is a single segment. */
  ghost predicate Bounded(groupings: seq<Group>, lens: seq<nat>, maxTokens: int) {
    forall i :: 0 <= i < |groupings| ==>
      var g := groupings[i];
      g.start < g.end <= |lens| && (g.end == g.start + 1 || Tokens(lens, g.start, g.end) <= maxTokens)
  }

  ghost predicate FaithfulUpTo(results: seq<ChunkResult>, source: string, maxTokens: int, upto: nat) {
    && upto <= |source|
    && (forall i :: 0 <= i < |results| ==> ExactChunk(results[i], source, maxTokens) && results[i].end <= upto)
    && (forall i :: 0 < i < |results| ==> After(results, i))
    && (forall p :: 0 <= p < upto ==> Kept(results, source, p))
  }

  function EndOf(spans: seq<Splitter.Span>, k: nat): nat
    requires k <= |spans|
  {
    if k == 0 then 0 else spans[k - 1].end
  }

  /** r is the one exact chunk of [lo, hi), or nothing when that stretch is blank. */
  predicate Extends(r: seq<ChunkResult>, source: string, maxTokens: int, lo: nat, hi: nat)
    requires lo < hi <= |source|
  {
    if r == [] then Blank(source[lo..hi])
    else |r| == 1 && r[0].start == lo && r[0].end == hi && ExactChunk(r[0], source, maxTokens)
  }

  /** One more exact chunk after the covered part, or a blank stretch, extends the covered part. */
  lemma FaithfulStep(results: seq<ChunkResult>, source: string, maxTokens: int, lo: nat, hi: nat, r: seq<ChunkResult>)
    requires FaithfulUpTo(results, source, maxTokens, lo) && lo < hi <= |source|
    requires Extends(r, source, maxTokens, lo, hi)
    ensures FaithfulUpTo(results + r, source, maxTokens, hi)
  {
    var all := results + r;
    forall i | 0 <= i < |all|
      ensures ExactChunk(all[i], source, maxTokens) && all[i].end <= hi
      ensures 0 < i ==> After(all, i)
    {
      if i < |results| {
        assert all[i] == results[i];
        if 0 < i { assert all[i - 1] == results[i - 1] && After(results, i); }
      } else {
        assert all[i] == r[0];
        if 0 < i { assert all[i - 1] == results[i - 1]; }
      }
    }
    forall p | 0 <= p < hi
      ensures Kept(all, source, p)
    {
      if IsSpace(source[p]) {
      } else if p < lo {
        assert Kept(results, source, p);
        var i :| 0 <= i < |results| && results[i].start <= p < results[i].end;
        assert all[i] == results[i];
      } else {
        assert source[lo..hi][p - lo] == source[p];
        assert all[|results|] == r[0];
      }
    }
  }

  lemma PieceExact(source: string, lo: nat, hi: nat, g: Group, maxTokens: int)
    requires lo < hi <= |source| && Count(source[lo..hi]) <= maxTokens
    ensures Extends(PieceOf(source[lo..hi], lo, hi, g), source, maxTokens, lo, hi)
  {
  }

  /** The chunk of a bounded group is exact, or the group is blank. */
  lemma ChunkOfExact(spans: seq<Splitter.Span>, g: Group, source: string, maxTokens: int)
    requires Splitter.Covers(spans, source) && g.start < g.end <= |spans|
    requires g.end == g.start + 1 || Tokens(Lengths(spans), g.start, g.end) <= maxTokens
    requires Count(spans[g.start].text) <= maxTokens
    ensures spans[g.start].start < spans[g.end - 1].end <= |source|
    ensures Extends(ChunkOf(spans, g, source), source, maxTokens, spans[g.start].start, spans[g.end - 1].end)
  {
    SpansOrdered(spans, source, g.start, g.end);
    SliceWords(spans, source, g.start, g.end);
    ChunkIs(spans, g, source);
    PieceExact(source, spans[g.start].start, spans[g.end - 1].end, g, maxTokens);
  }

  /** Where the source is covered up to once k groups are built. */
  function BuiltEnd(spans: seq<Splitter.Span>, groupings: seq<Group>, k: nat): nat
    requires InRange(groupings, |spans|) && k <= |groupings|
  {
    EndOf(spans, if k == 0 then 0 else groupings[k - 1].end)
  }

  /** Group k starts where the covered part ends, keeps to the bound, and so is ready to be built. */
  ghost predicate Ready(spans: seq<Splitter.Span>, groupings: seq<Group>, k: nat, maxTokens: int)
    requires InRange(groupings, |spans|) && k < |groupings|
  {
    var g := groupings[k];
    && BuiltEnd(spans, groupings, k) == spans[g.start].start
    && (g.end == g.start + 1 || Tokens(Lengths(spans), g.start, g.end) <= maxTokens)
    && Count(spans[g.start].text) <= maxTokens
  }

  lemma EndsMeet(spans: seq<Splitter.Span>, groupings: seq<Group>, k: nat, source: string)
    requires Splitter.Covers(spans, source) && InRange(groupings, |spans|) && k < |groupings|
    requires if k == 0 then groupings[k].start == 0 else Follows(groupings, k)
    ensures BuiltEnd(spans, groupings, k) == spans[groupings[k].start].start
  {
    if k > 0 { assert Splitter.Meets(spans, groupings[k].start); }
  }

  lemma LastEnd(spans: seq<Splitter.Span>, groupings: seq<Group>, source: string)
    requires Splitter.Covers(spans, source) && InRange(groupings, |spans|)
    requires groupings != [] && groupings[|groupings| - 1].end == |spans|
    ensures BuiltEnd(spans, groupings, |groupings|) == |source|
  {
  }

  lemma {:induction false} GroupReady(spans: seq<Splitter.Span>, groupings: seq<Group>, k: nat, source: string,
                                      maxTokens: int)
    requires Splitter.Covers(spans, source) && k < |groupings|
    requires InRange(groupings, |spans|) && Tiles(groupings, 0, |spans|)
    requires Bounded(groupings, Lengths(spans), maxTokens)
    requires forall i :: 0 <= i < |spans| ==> Count(spans[i].text) <= maxTokens
    ensures Ready(spans, groupings, k, maxTokens)
  {
    TilesBounds(groupings, 0, |spans|);
    if k > 0 { assert Follows(groupings, k); }
    EndsMeet(spans, groupings, k, source);
  }

  /** Piece i covers exactly the stretch between two cuts of the source. */
  ghost predicate ExtendsAt(pieces: seq<seq<ChunkResult>>, cuts: seq<nat>, i: nat, source: string, maxTokens: int)
    requires i < |pieces| && |cuts| == |pieces| + 1
  {
    cuts[i] < cuts[i + 1] <= |source| && Extends(pieces[i], source, maxTokens, cuts[i], cuts[i + 1])
  }

  lemma {:induction false} PiecesFaithful(pieces: seq<seq<ChunkResult>>, cuts: seq<nat>, k: nat, source: string,
                                          maxTokens: int)
    requires |cuts| == |pieces| + 1 && cuts[0] == 0 && k <= |pieces|
    requires forall i :: 0 <= i < |pieces| ==> ExtendsAt(pieces, cuts, i, source, maxTokens)
    ensures FaithfulUpTo(Concat(pieces, k), source, maxTokens, cuts[k])
  {
    if k > 0 {
      PiecesFaithful(pieces, cuts, k - 1, source, maxTokens);
      assert ExtendsAt(pieces, cuts, k - 1, source, maxTokens);
      FaithfulStep(Concat(pieces, k - 1), source, maxTokens, cuts[k - 1], cuts[k], pieces[k - 1]);
    }
  }

  /** Where the source is cut by the groups. */
  ghost function Cuts(spans: seq<Splitter.Span>, groupings: seq<Group>): seq<nat>
    requires InRange(groupings, |spans|)
  {
    seq(|groupings| + 1, k requires 0 <= k <= |groupings| => BuiltEnd(spans, groupings, k))
  }

  lemma CutsAt(spans: seq<Splitter.Span>, groupings: seq<Group>, k: nat, source: string)
    requires Splitter.Covers(spans, source) && InRange(groupings, |spans|) && k < |groupings|
    requires BuiltEnd(spans, groupings, k) == spans[groupings[k].start].start
    ensures var cuts, g := Cuts(spans, groupings), groupings[k];
            cuts[k] == spans[g.start].start && cuts[k + 1] == spans[g.end - 1].end
  {
  }

  lemma GroupExtends(spans: seq<Splitter.Span>, groupings: seq<Group>, k: nat, source: string, maxTokens: int)
    requires Splitter.Covers(spans, source) && InRange(groupings, |spans|) && k < |groupings|
    requires Ready(spans, groupings, k, maxTokens)
    ensures ExtendsAt(Pieces(spans, groupings, source), Cuts(spans, groupings), k, source, maxTokens)
  {
    CutsAt(spans, groupings, k, source);
    ChunkOfExact(spans, groupings[k], source, maxTokens);
  }

  /** Any grouping that tiles the segments within the bounds builds faithful chunks. */
  lemma {:induction false} BuiltIsFaithful(spans: seq<Splitter.Span>, groupings: seq<Group>, source: string,
                                           maxTokens: int)
    requires Splitter.Covers(spans, source) && spans != []
    requires Tiles(groupings, 0, |spans|) && Bounded(groupings, Lengths(spans), maxTokens)
    requires forall i :: 0 <= i < |spans| ==> Count(spans[i].text) <= maxTokens
    ensures InRange(groupings, |spans|)
    ensures Faithful(Built(spans, groupings, source), source, maxTokens)
  {
    TilesBounds(groupings, 0, |spans|);
    var pieces, cuts := Pieces(spans, groupings, source), Cuts(spans, groupings);
    forall k | 0 <= k < |groupings|
      ensures ExtendsAt(pieces, cuts, k, source, maxTokens)
    {
      GroupReady(spans, groupings, k, source, maxTokens);
      GroupExtends(spans, groupings, k, source, maxTokens);
    }
    PiecesFaithful(pieces, cuts, |groupings|, source, maxTokens);
    LastEnd(spans, groupings, source);
    FaithfulWhole(Concat(pieces, |groupings|), source, maxTokens, cuts[|groupings|]);
  }

  lemma FaithfulWhole(results: seq<ChunkResult>, source: string, maxTokens: int, upto: nat)
    requires FaithfulUpTo(results, source, maxTokens, upto) && upto == |source|
    ensures Faithful(results, source, maxTokens)
  {
  }

  // ---------------------------------------------------------------- the service

  function Relabelled(results: seq<ChunkResult>, strategy: Strategy, degraded: bool): (r: seq<ChunkResult>)
  {
    seq(|results|, i requires 0 <= i < |results| => results[i].(strategy := strategy, degraded := degraded))
  }

  lemma RelabelledFaithful(results: seq<ChunkResult>, strategy: Strategy, degraded: bool, source: string,
                           maxTokens: int)
    requires Faithful(results, source, maxTokens)
    ensures Faithful(Relabelled(results, strategy, degraded), source, maxTokens)
  {
    var r := Relabelled(results, strategy, degraded);
    forall p | 0 <= p < |source|
      ensures Kept(r, source, p)
    {
      assert Kept(results, source, p);
      if !IsSpace(source[p]) {
        var i :| 0 <= i < |results| && results[i].start <= p < results[i].end;
        assert r[i].start <= p < r[i].end;
      }
    }
    forall i | 0 < i < |r|
      ensures After(r, i)
    {
      assert After(results, i);
      assert r[i - 1].end == results[i - 1].end && r[i].start == results[i].start;
    }
  }

  /** The chunks of a grouping, under the mark of the path that made it. */
  ghost predicate Chunked(results: seq<ChunkResult>, spans: seq<Splitter.Span>, source: string, groupings: seq<Group>,
                          strategy: Strategy, degraded: bool)
    requires Splitter.Covers(spans, source)
  {
    InRange(groupings, |spans|) && results == Relabelled(Built(spans, groupings, source), strategy, degraded)
  }

  lemma {:induction false} ConcatLabels(pieces: seq<seq<ChunkResult>>, k: nat)
    requires k <= |pieces|
    requires forall i, j :: 0 <= i < |pieces| && 0 <= j < |pieces[i]| ==> AsMade(pieces[i][j])
    ensures forall i :: 0 <= i < |Concat(pieces, k)| ==> AsMade(Concat(pieces, k)[i])
  {
    if k > 0 { ConcatLabels(pieces, k - 1); }
  }

  /** The mark that chunks are built with. */
  predicate AsMade(r: ChunkResult) {
    r.strategy == Dp && !r.degraded
  }

  /** The optimiser's chunks keep that mark. */
  lemma BuiltAsMade(spans: seq<Splitter.Span>, groupings: seq<Group>, source: string)
    requires Splitter.Covers(spans, source) && InRange(groupings, |spans|)
    ensures Chunked(Built(spans, groupings, source), spans, source, groupings, Dp, false)
  {
    var pieces := Pieces(spans, groupings, source);
    forall i, j | 0 <= i < |pieces| && 0 <= j < |pieces[i]|
      ensures AsMade(pieces[i][j])
    {
      PieceAsMade(spans, groupings[i], source);
    }
    ConcatLabels(pieces, |groupings|);
    LabelledAlready(Built(spans, groupings, source));
  }

  lemma PieceAsMade(spans: seq<Splitter.Span>, g: Group, source: string)
    requires Splitter.Covers(spans, source) && g.start < g.end <= |spans|
    ensures forall j :: 0 <= j < |ChunkOf(spans, g, source)| ==> AsMade(ChunkOf(spans, g, source)[j])
  {
    ChunkIs(spans, g, source);
  }

  lemma LabelledAlready(results: seq<ChunkResult>)
    requires forall i :: 0 <= i < |results| ==> AsMade(results[i])
    ensures Relabelled(results, Dp, false) == results
  {
  }

  method FallbackChunking(spans: seq<Splitter.Span>, lens: seq<nat>, source: string, params: Params)
    returns (results: seq<ChunkResult>, ghost groupings: seq<Group>)
    requires Splitter.Covers(spans, source) && lens == Lengths(spans) && Resolved(params) && |spans| >= 2
    requires forall i :: 0 <= i < |spans| ==> Count(spans[i].text) <= params.initialSegmentTokens
    ensures Faithful(results, source, params.lim.maxTokens)
    ensures GreedyCut(groupings, ByTokens(lens, params.lim.maxTokens))
    ensures Chunked(results, spans, source, groupings, GreedyToken, true)
  {
    var made := GreedyFallbackChunking(lens, params.lim.maxTokens);
    groupings := made;
    GreedyBounded(made, ByTokens(lens, params.lim.maxTokens), params.lim.maxTokens);
    BuiltIsFaithful(spans, made, source, params.lim.maxTokens);
    results := BuildChunkResults(spans, made, source);
    RelabelledFaithful(results, GreedyToken, true, source, params.lim.maxTokens);
    results := Relabelled(results, GreedyToken, true);
  }

  lemma GreedyBounded(groupings: seq<Group>, rule: Rule, maxTokens: int)
    requires rule.Valid() && GreedyCut(groupings, rule)
    requires rule.ByTokens? ==> maxTokens == rule.maxTokens
    requires rule.BySimilarity? ==> maxTokens == rule.lim.maxTokens
    ensures Bounded(groupings, rule.lens, maxTokens)
  {
    forall i | 0 <= i < |groupings|
      ensures var g := groupings[i]; g.end == g.start + 1 || Tokens(rule.lens, g.start, g.end) <= maxTokens
    {
      GreedyRunBound(groupings[i], rule, maxTokens);
    }
  }

  method GreedySemanticChunking(spans: seq<Splitter.Span>, lens: seq<nat>, source: string, params: Params,
                                e: Embeddings)
    returns (results: seq<ChunkResult>, ghost groupings: seq<Group>)
    requires Splitter.Covers(spans, source) && lens == Lengths(spans) && Resolved(params) && |spans| >= 2
    requires forall i :: 0 <= i < |spans| ==> Count(spans[i].text) <= params.initialSegmentTokens
    ensures Faithful(results, source, params.lim.maxTokens)
    ensures Grouped(groupings, lens, params, true, Usable(e, |spans|))
    ensures Chunked(results, spans, source, groupings, StrategyOf(true, Usable(e, |spans|)),
                    Usable(e, |spans|).Unavailable?)
  {
    var u := Usable(e, |spans|);
    if u.Unavailable? {
      results, groupings := FallbackChunking(spans, lens, source, params);
      return;
    }
    var made := GreedyMergeBySimilarity(lens, params.lim, u.adjacent, u.threshold);
    groupings := made;
    GreedyBounded(made, BySimilarity(lens, params.lim, u.adjacent, u.threshold), params.lim.maxTokens);
    BuiltIsFaithful(spans, made, source, params.lim.maxTokens);
    results := BuildChunkResults(spans, made, source);
    RelabelledFaithful(results, GreedySemantic, false, source, params.lim.maxTokens);
    results := Relabelled(results, GreedySemantic, false);
  }

  /** The path of two or more segments: what the embeddings and the number of segments decide. */
  function StrategyOf(over: bool, u: Embeddings): Strategy {
    if u.Unavailable? then GreedyToken else if over then GreedySemantic else Dp
  }

  /** The grouping of each path. Without an admissible partition the optimiser's is the greedy one. */
  ghost predicate Grouped(groupings: seq<Group>, lens: seq<nat>, params: Params, over: bool, u: Embeddings)
    requires u.Vectors? ==> Square(u.sim, |lens|) && |u.adjacent| + 1 == |lens|
  {
    if u.Unavailable? then GreedyCut(groupings, ByTokens(lens, params.lim.maxTokens))
    else if over then GreedyCut(groupings, BySimilarity(lens, params.lim, u.adjacent, u.threshold))
    else if Feasible(lens, params.lim) then Optimal(groupings, Problem(lens, u.sim, params.lim))
    else GreedyCut(groupings, ByTokens(lens, params.lim.maxTokens))
  }

  method OptimalChunking(spans: seq<Splitter.Span>, lens: seq<nat>, source: string, params: Params, u: Embeddings)
    returns (results: seq<ChunkResult>, ghost groupings: seq<Group>)
    requires Splitter.Covers(spans, source) && lens == Lengths(spans) && Resolved(params) && |spans| >= 2
    requires forall i :: 0 <= i < |spans| ==> Count(spans[i].text) <= params.initialSegmentTokens
    requires u.Vectors? && Square(u.sim, |spans|) && |u.adjacent| + 1 == |spans|
    ensures Faithful(results, source, params.lim.maxTokens)
    ensures Grouped(groupings, lens, params, false, u)
    ensures Chunked(results, spans, source, groupings, Dp, false)
  {
    var p := Problem(lens, u.sim, params.lim);
    var made := DynamicProgrammingChunking(p);
    groupings := made;
    OptimiserBounded(made, p);
    BuiltIsFaithful(spans, made, source, params.lim.maxTokens);
    results := BuildChunkResults(spans, made, source);
    BuiltAsMade(spans, made, source);
  }

  /**
   The whole service on text whose offsets must survive. Whichever path runs, the chunks are faithful. The segments
   are the splitter's; one of them is a chunk by itself, and more are grouped and marked as their number and the
   embeddings decide.
   */
  method SplitTextWithMetadata(text: string, params: Params, maxSegmentsForDp: nat, e: Embeddings)
    returns (results: seq<ChunkResult>, ghost segments: seq<Splitter.Span>, ghost groupings: seq<Group>)
    requires Resolved(params)
    ensures Faithful(results, text, params.lim.maxTokens)
    ensures Blank(text) ==> results == [] && segments == []
    ensures !Blank(text) ==>
              Splitter.Covers(segments, text) && SplitterMade(segments, text, params.initialSegmentTokens)
    ensures !Blank(text) ==> segments != []
    ensures !Blank(text) && |segments| == 1 ==>
              && results == [SingleResult(segments[0], text)]
              && results[0].strategy == Single && results[0].segments == Group(0, 1) && !results[0].degraded
    ensures
      var n := |segments|; var u := Usable(e, n); var over := n > maxSegmentsForDp;
      !Blank(text) && n >= 2 ==>
        && Grouped(groupings, Lengths(segments), params, over, u)
        && Chunked(results, segments, text, groupings, StrategyOf(over, u), u.Unavailable?)
  {
    CountZeroIffBlank(text);
    groupings := [];
    if text == "" || Count(text) == 0 {
      segments := [];
      return [], segments, groupings;
    }
    var spanResult := Splitter.SplitTextWithSpans(text, Splitter.DEFAULT_SEPARATORS, params.initialSegmentTokens);
    var spans := spanResult.spans;
    segments := spans;
    SegmentSizes(text, spans, params.initialSegmentTokens);
    if |spans| == 0 {
      return [], segments, groupings;
    }
    if |spans| == 1 {
      SingleFaithful(spans, text, params.lim.maxTokens);
      results := [SingleResult(spans[0], text)];
      return results, segments, groupings;
    }
    var lens := Lengths(spans);
    if |spans| > maxSegmentsForDp {
      results, groupings := GreedySemanticChunking(spans, lens, text, params, e);
      return results, segments, groupings;
    }
    var u := Usable(e, |spans|);
    if u.Unavailable? {
      results, groupings := FallbackChunking(spans, lens, text, params);
      return results, segments, groupings;
    }
    results, groupings := OptimalChunking(spans, lens, text, params, u);
  }

  /** A chunk spans the segments of a group. */
  predicate SpansGroup(r: ChunkResult, spans: seq<Splitter.Span>, g: Group) {
    && g.start < g.end <= |spans| && r.segments == g
    && r.start == spans[g.start].start && r.end == spans[g.end - 1].end
  }

  predicate FromGroup(r: ChunkResult, spans: seq<Splitter.Span>, groupings: seq<Group>) {
    exists i :: 0 <= i < |groupings| && SpansGroup(r, spans, groupings[i])
  }

  predicate AllFromGroups(results: seq<ChunkResult>, spans: seq<Splitter.Span>, groupings: seq<Group>) {
    forall j :: 0 <= j < |results| ==> FromGroup(results[j], spans, groupings)
  }

  lemma {:induction false} ConcatFromGroups(spans: seq<Splitter.Span>, groupings: seq<Group>, source: string, k: nat)
    requires Splitter.Covers(spans, source) && InRange(groupings, |spans|) && k <= |groupings|
    ensures AllFromGroups(Concat(Pieces(spans, groupings, source), k), spans, groupings)
  {
    if k > 0 {
      ConcatFromGroups(spans, groupings, source, k - 1);
      var before, piece := Concat(Pieces(spans, groupings, source), k - 1), Pieces(spans, groupings, source)[k - 1];
      ChunkIs(spans, groupings[k - 1], source);
      forall j | 0 <= j < |before + piece|
        ensures FromGroup((before + piece)[j], spans, groupings)
      {
        var r := (before + piece)[j];
        if j < |before| {
          assert r == before[j];
        } else {
          assert r == piece[0];
          assert SpansGroup(r, spans, groupings[k - 1]);
        }
      }
    }
  }

  /** Each chunk spans a group, and bears the mark it was given. */
  predicate Marked(results: seq<ChunkResult>, spans: seq<Splitter.Span>, groupings: seq<Group>, strategy: Strategy,
                   degraded: bool)
  {
    forall j :: 0 <= j < |results| ==>
      FromGroup(results[j], spans, groupings) && results[j].strategy == strategy && results[j].degraded == degraded
  }

  lemma ChunkedIsMarked(results: seq<ChunkResult>, spans: seq<Splitter.Span>, source: string, groupings: seq<Group>,
                        strategy: Strategy, degraded: bool)
    requires Splitter.Covers(spans, source) && Chunked(results, spans, source, groupings, strategy, degraded)
    ensures Marked(results, spans, groupings, strategy, degraded)
  {
    ConcatFromGroups(spans, groupings, source, |groupings|);
    var built := Built(spans, groupings, source);
    assert AllFromGroups(built, spans, groupings);
    forall j | 0 <= j < |results|
      ensures FromGroup(results[j], spans, groupings)
    {
      assert FromGroup(built[j], spans, groupings);
      assert results[j] == built[j].(strategy := strategy, degraded := degraded);
      var i :| 0 <= i < |groupings| && SpansGroup(built[j], spans, groupings[i]);
      SameSpan(built[j], results[j], spans, groupings[i]);
    }
  }

  lemma SameSpan(a: ChunkResult, b: ChunkResult, spans: seq<Splitter.Span>, g: Group)
    requires SpansGroup(a, spans, g) && b.segments == a.segments && b.start == a.start && b.end == a.end
    ensures SpansGroup(b, spans, g)
  {
  }

  /**
   What decides the path of two or more segments. Without vectors of the right shape the chunks are those of the token
   cut, degraded; with them those of the similarity cut when there are too many segments to optimise, and otherwise
   those of a maximal admissible grouping, if there is one. Sizes are the segments' own word counts.
   */
  lemma PathDecides(results: seq<ChunkResult>, segments: seq<Splitter.Span>, text: string, groupings: seq<Group>,
                    params: Params, maxSegmentsForDp: nat, e: Embeddings, lens: seq<nat>)
    requires Splitter.Covers(segments, text) && |segments| >= 2
    requires var u := Usable(e, |segments|); var over := |segments| > maxSegmentsForDp;
             && Grouped(groupings, Lengths(segments), params, over, u)
             && Chunked(results, segments, text, groupings, StrategyOf(over, u), u.Unavailable?)
    requires |lens| == |segments| && forall i :: 0 <= i < |segments| ==> lens[i] == Count(segments[i].text)
    ensures var n := |segments|; var byTokens := ByTokens(lens, params.lim.maxTokens);
            if e.Unavailable? || !Square(e.sim, n) || |e.adjacent| != n - 1 then
              Marked(results, segments, groupings, GreedyToken, true) && GreedyCut(groupings, byTokens)
            else if n > maxSegmentsForDp then
              && Marked(results, segments, groupings, GreedySemantic, false)
              && GreedyCut(groupings, BySimilarity(lens, params.lim, e.adjacent, e.threshold))
            else
              && Marked(results, segments, groupings, Dp, false)
              && if Feasible(lens, params.lim) then Optimal(groupings, Problem(lens, e.sim, params.lim))
                 else GreedyCut(groupings, byTokens)
  {
    var u := Usable(e, |segments|);
    assert Lengths(segments) == lens;
    ChunkedIsMarked(results, segments, text, groupings, StrategyOf(|segments| > maxSegmentsForDp, u), u.Unavailable?);
  }

  /** The spans carry the segments that the splitter makes of the text, none of them over the segment size. */
  ghost predicate SplitterMade(spans: seq<Splitter.Span>, text: string, size: int)
    requires size >= 1
  {
    var segments := Splitter.Segments(text, Splitter.DEFAULT_SEPARATORS, size, Splitter.ForceOf(size));
    && Splitter.Placed(spans, segments, |segments|)
    && forall i :: 0 <= i < |spans| ==> Count(spans[i].text) <= size
  }

  function SingleResult(span: Splitter.Span, text: string): ChunkResult
    requires span.start <= span.end <= |text|
  {
    ChunkResult(text[span.start..span.end], span.start, span.end, Count(span.text), Group(0, 1), Single, false, true)
  }

  lemma SingleFaithful(spans: seq<Splitter.Span>, text: string, maxTokens: int)
    requires Splitter.Covers(spans, text) && |spans| == 1
    requires !Blank(text) && Count(spans[0].text) <= maxTokens
    ensures Faithful([SingleResult(spans[0], text)], text, maxTokens)
  {
    var r := SingleResult(spans[0], text);
    assert spans[0].start == 0 && spans[0].end == |text|;
    Units(text);
    assert r.text == text && ExactChunk(r, text, maxTokens);
    forall p | 0 <= p < |text|
      ensures Kept([r], text, p)
    {
      assert [r][0].start <= p < [r][0].end;
    }
  }

  lemma {:induction false} OptimiserBounded(groupings: seq<Group>, p: Problem)
    requires p.Valid()
    requires if Feasible(p.lens, p.lim) then Optimal(groupings, p)
             else GreedyCut(groupings, ByTokens(p.lens, p.lim.maxTokens))
    ensures Tiles(groupings, 0, |p.lens|) && Bounded(groupings, p.lens, p.lim.maxTokens)
  {
    if Feasible(p.lens, p.lim) {
      forall i | 0 <= i < |groupings|
        ensures Fits(p.lens, p.lim, groupings[i])
      {
      }
    } else {
      GreedyBounded(groupings, ByTokens(p.lens, p.lim.maxTokens), p.lim.maxTokens);
    }
  }

  lemma {:induction false} SegmentSizes(text: string, spans: seq<Splitter.Span>, size: Splitter.Size)
    requires var segments := Splitter.Segments(text, Splitter.DEFAULT_SEPARATORS, size, Splitter.ForceOf(size));
             Splitter.Placed(spans, segments, |segments|)
    ensures forall i :: 0 <= i < |spans| ==> Count(spans[i].text) <= size
  {
    Splitter.SegmentsSound(text, Splitter.DEFAULT_SEPARATORS, size);
  }

  /** The published strategy always has room, so on its documents the optimiser never falls back. */
  lemma PublishedStrategyIsFeasible(spans: seq<Splitter.Span>)
    requires forall i :: 0 <= i < |spans| ==> Count(spans[i].text) <= CLUSTER_SEMANTIC_1.initialSegmentTokens
    ensures Resolved(CLUSTER_SEMANTIC_1)
    ensures Feasible(Lengths(spans), CLUSTER_SEMANTIC_1.lim)
  {
    FeasibleWithRoom(Lengths(spans), CLUSTER_SEMANTIC_1.lim, CLUSTER_SEMANTIC_1.initialSegmentTokens);
  }

  // ---------------------------------------------------------------- the client's acceptance test

  /** The client keeps a chunk's span only when it is verbatim and cuts exactly the chunk's text. */
  function ExactSpan(r: ChunkResult, document: string): Option<(nat, nat)> {
    if !r.verbatim then None
    else if r.end <= r.start || r.end > |document| then None
    else if document[r.start..r.end] == r.text then Some((r.start, r.end)) else None
  }

  /** The client accepts the span of every chunk of a faithful result. */
  lemma ClientAcceptsAll(results: seq<ChunkResult>, source: string, maxTokens: int, i: nat)
    requires Faithful(results, source, maxTokens) && i < |results|
    ensures ExactSpan(results[i], source) == Some((results[i].start, results[i].end))
  {
    assert ExactChunk(results[i], source, maxTokens);
  }

  /** No two of the accepted spans overlap, and they come in order. */
  lemma {:induction false} AcceptedInOrder(results: seq<ChunkResult>, source: string, maxTokens: int, i: nat, j: nat)
    requires Faithful(results, source, maxTokens) && i < j < |results|
    ensures results[i].end <= results[j].start
  {
    assert After(results, j);
    if i < j - 1 {
      AcceptedInOrder(results, source, maxTokens, i, j - 1);
      assert ExactChunk(results[j - 1], source, maxTokens);
    }
  }
}
