/**
 The assembler: ranked items become passages within a token budget, and citations that passages refer to by number.
 */
module Assembly {
  import opened Options
  import opened Words
  import opened Evidence

  // ---------------------------------------------------------------- truncation to a token budget

  /** A word ends before position k. */
  predicate WordEndsAt(s: string, k: nat)
    requires 0 < k <= |s|
  {
    !IsSpace(s[k - 1]) && (k == |s| || IsSpace(s[k]))
  }

  /** The ends of the words that end at or before position k, in order. */
  function WordEnds(s: string, k: nat): seq<nat>
    requires k <= |s|
  {
    if k == 0 then [] else WordEnds(s, k - 1) + if WordEndsAt(s, k) then [k] else []
  }

  /** Position k is inside a word. */
  predicate InsideWord(s: string, k: nat)
    requires k <= |s|
  {
    0 < k < |s| && !IsSpace(s[k - 1]) && !IsSpace(s[k])
  }

  /**
   Words that have started are those that have ended and the one that has not; the n-th end has n starts before it.
   */
  lemma {:induction false} EndsMatchStarts(s: string, k: nat)
    requires k <= |s|
    ensures |WordEnds(s, k)| + (if InsideWord(s, k) then 1 else 0) == Starts(s, k)
    ensures forall i :: 0 <= i < |WordEnds(s, k)| ==>
              0 < WordEnds(s, k)[i] <= k && WordEndsAt(s, WordEnds(s, k)[i]) && Starts(s, WordEnds(s, k)[i]) == i + 1
  {
    if k > 0 { EndsMatchStarts(s, k - 1); }
  }

  function TruncateToBudget(item: Item, budget: int): Option<Item> {
    if item.chunk.tokenCount <= budget then Some(item)
    else if budget < 1 then None
    else
      EndsMatchStarts(item.chunk.text, |item.chunk.text|);
      var ends := WordEnds(item.chunk.text, |item.chunk.text|);
      if |ends| != item.chunk.tokenCount || |ends| < budget then None
      else Some(Truncate(item, ends[budget - 1], budget))
  }

  /**
   * A cut item has exactly the budget's number of words; only an item whose token count is not its word count can be
   * dropped although the budget has room for a word. Exact items stay exact.
   */
  lemma BudgetCut(item: Item, budget: int, document: string)
    requires Exact(item.chunk, document)
    ensures var cut := TruncateToBudget(item, budget);
            && (cut.Some? ==> cut.value.chunk.tokenCount <= budget && Exact(cut.value.chunk, document))
            && (cut.Some? && cut.value != item ==>
                  Count(cut.value.chunk.text) == cut.value.chunk.tokenCount == budget
                  && cut.value.chunk.text <= item.chunk.text)
            && (cut.None? <==>
                  budget < item.chunk.tokenCount && (budget < 1 || item.chunk.tokenCount != Count(item.chunk.text)))
  {
    var text := item.chunk.text;
    EndsMatchStarts(text, |text|);
    if 1 <= budget < item.chunk.tokenCount == |WordEnds(text, |text|)| {
      var e := WordEnds(text, |text|)[budget - 1];
      assert text[..e][..e] == text[..e];
      StartsPrefix(text[..e], text, e);
      TruncateIsExact(item, e, budget, document);
    }
  }

  // ---------------------------------------------------------------- citations

  datatype Span = Span(start: Option<nat>, end: Option<nat>, verbatim: bool, evidenceId: Option<EvidenceId>,
    section: Option<string>)

  datatype Citation = Citation(id: nat, url: string, documentId: Option<string>, spans: seq<Span>)

  datatype Passage = Passage(chunk: Chunk, score: real, citationId: nat)

  datatype Assembled = Assembled(passages: seq<Passage>, citations: seq<Citation>, ids: map<string, nat>, tokens: nat)

  /** Documents are told apart by their identifier, or failing that by their normalised address. */
  function Key(documentId: Option<string>, url: string, normalize: string -> string): string {
    if documentId.Some? && documentId.value != "" then documentId.value else normalize(url)
  }

  function ChunkKey(c: Chunk, normalize: string -> string): string {
    Key(c.documentId, c.sourceUrl, normalize)
  }

  function CitationKey(c: Citation, normalize: string -> string): string {
    Key(c.documentId, c.url, normalize)
  }

  function SpanOf(c: Chunk): Span {
    Span(c.start, c.end, c.verbatim, c.evidenceId, c.section)
  }

  function WithSpan(c: Citation, span: Span): Citation {
    if span in c.spans then c else c.(spans := c.spans + [span])
  }

  /** The citation of the chunk's document, made if it is new. */
  function Cite(a: Assembled, c: Chunk, normalize: string -> string): (r: (Assembled, nat)) {
    var key := ChunkKey(c, normalize);
    if key in a.ids then (a, a.ids[key])
    else
      var id := |a.citations| + 1;
      (a.(citations := a.citations + [Citation(id, c.sourceUrl, c.documentId, [])], ids := a.ids[key := id]), id)
  }

  /** The citation in place i has number i + 1, and its document's key leads to that number. */
  predicate NumberedAt(citations: seq<Citation>, ids: map<string, nat>, i: nat, normalize: string -> string) {
    && i < |citations| && citations[i].id == i + 1
    && CitationKey(citations[i], normalize) in ids && ids[CitationKey(citations[i], normalize)] == i + 1
  }

  predicate KeyedAt(citations: seq<Citation>, ids: map<string, nat>, key: string, normalize: string -> string) {
    key in ids && 0 < ids[key] <= |citations| && CitationKey(citations[ids[key] - 1], normalize) == key
  }

  /** Numbers and keys match one to one. */
  ghost predicate Numbered(citations: seq<Citation>, ids: map<string, nat>, normalize: string -> string) {
    && (forall i :: 0 <= i < |citations| ==> NumberedAt(citations, ids, i, normalize))
    && (forall key :: key in ids ==> KeyedAt(citations, ids, key, normalize))
  }

  /** Each passage refers to the citation of its own document, which lists the passage's span. */
  predicate Refers(p: Passage, citations: seq<Citation>, normalize: string -> string) {
    && 0 < p.citationId <= |citations|
    && CitationKey(citations[p.citationId - 1], normalize) == ChunkKey(p.chunk, normalize)
    && SpanOf(p.chunk) in citations[p.citationId - 1].spans
  }

  predicate Distinct<T(==)>(s: seq<T>) {
    forall i, j :: 0 <= i < j < |s| ==> s[i] != s[j]
  }

  function Tokens(passages: seq<Passage>, k: nat): nat
    requires k <= |passages|
  {
    if k == 0 then 0 else Tokens(passages, k - 1) + passages[k - 1].chunk.tokenCount
  }

  /** What holds of an assembly: numbering, references, no span listed twice, and the token count. */
  ghost predicate AssembledOk(a: Assembled, normalize: string -> string) {
    && Numbered(a.citations, a.ids, normalize)
    && AllRefer(a.passages, a.citations, normalize)
    && SpansOk(a.citations)
    && a.tokens == Tokens(a.passages, |a.passages|)
  }

  predicate InRange(a: Assembled) {
    forall key :: key in a.ids ==> 0 < a.ids[key] <= |a.citations|
  }

  /** One item, already cut to what is left of the budget. */
  function Add(a: Assembled, item: Item, normalize: string -> string): Assembled
    requires InRange(a)
  {
    var (b, id) := Cite(a, item.chunk, normalize);
    Append(b, Passage(item.chunk, item.score, id))
  }

  /** The passage joins the list, and its span the citation it refers to. */
  function Append(a: Assembled, p: Passage): Assembled
    requires 0 < p.citationId <= |a.citations|
  {
    var i := p.citationId - 1;
    Assembled(a.passages + [p], a.citations[i := WithSpan(a.citations[i], SpanOf(p.chunk))], a.ids,
              a.tokens + p.chunk.tokenCount)
  }

  /** Passages taken in rank order until the limit on their number, each within what is left of the budget. */
  function AssembleUpTo(ranked: seq<Item>, budget: int, maxPassages: Option<nat>, normalize: string -> string,
                        k: nat): (a: Assembled)
    requires k <= |ranked|
    ensures InRange(a)
  {
    if k == 0 then Assembled([], [], map[], 0)
    else
      var a := AssembleUpTo(ranked, budget, maxPassages, normalize, k - 1);
      Next(a, ranked[k - 1], budget, maxPassages, normalize)
  }

  function Next(a: Assembled, item: Item, budget: int, maxPassages: Option<nat>,
                normalize: string -> string): (b: Assembled)
    requires InRange(a)
    ensures InRange(b)
  {
    if Enough(a, maxPassages) then a else Accept(a, TruncateToBudget(item, budget - a.tokens), normalize)
  }

  function Accept(a: Assembled, cut: Option<Item>, normalize: string -> string): (b: Assembled)
    requires InRange(a)
    ensures InRange(b)
  {
    if cut.None? then a else Add(a, cut.value, normalize)
  }

  predicate Enough(a: Assembled, maxPassages: Option<nat>) {
    maxPassages.Some? && |a.passages| >= maxPassages.value
  }

  /** What citing a chunk leaves: the numbering, and a citation of the chunk's document. */
  ghost predicate Cited(a: Assembled, b: Assembled, id: nat, c: Chunk, normalize: string -> string) {
    && Numbered(b.citations, b.ids, normalize) && 0 < id <= |b.citations|
    && CitationKey(b.citations[id - 1], normalize) == ChunkKey(c, normalize)
    && a.passages == b.passages && a.tokens == b.tokens
    && a.citations <= b.citations && |b.citations| <= |a.citations| + 1
    && (|b.citations| > |a.citations| ==> id == |b.citations| && b.citations[id - 1].spans == [])
  }

  lemma CiteKeeps(a: Assembled, c: Chunk, normalize: string -> string)
    requires Numbered(a.citations, a.ids, normalize)
    ensures var (b, id) := Cite(a, c, normalize); Cited(a, b, id, c, normalize)
  {
    var key := ChunkKey(c, normalize);
    if key in a.ids {
      assert KeyedAt(a.citations, a.ids, key, normalize);
    } else {
      NumberNext(a.citations, a.ids, Citation(|a.citations| + 1, c.sourceUrl, c.documentId, []), normalize);
    }
  }

  lemma NumberNext(citations: seq<Citation>, ids: map<string, nat>, c: Citation, normalize: string -> string)
    requires Numbered(citations, ids, normalize) && CitationKey(c, normalize) !in ids && c.id == |citations| + 1
    ensures Numbered(citations + [c], ids[CitationKey(c, normalize) := c.id], normalize)
  {
    var more, ids' := citations + [c], ids[CitationKey(c, normalize) := c.id];
    forall i | 0 <= i < |more|
      ensures NumberedAt(more, ids', i, normalize)
    {
      if i < |citations| { assert NumberedAt(citations, ids, i, normalize); }
    }
    forall key | key in ids'
      ensures KeyedAt(more, ids', key, normalize)
    {
      if key != CitationKey(c, normalize) { assert KeyedAt(citations, ids, key, normalize); }
    }
  }

  /** Numbering looks at numbers and keys only. */
  lemma NumberedKeeps(citations: seq<Citation>, ids: map<string, nat>, i: nat, span: Span, normalize: string -> string)
    requires Numbered(citations, ids, normalize) && i < |citations|
    ensures Numbered(citations[i := WithSpan(citations[i], span)], ids, normalize)
  {
    var more := citations[i := WithSpan(citations[i], span)];
    forall j | 0 <= j < |more|
      ensures NumberedAt(more, ids, j, normalize)
    {
      assert NumberedAt(citations, ids, j, normalize);
    }
    forall key | key in ids
      ensures KeyedAt(more, ids, key, normalize)
    {
      assert KeyedAt(citations, ids, key, normalize);
    }
  }

  /** A span is added to one citation; everything that referred to a citation still does. */
  lemma SpanKeeps(citations: seq<Citation>, i: nat, span: Span, p: Passage, normalize: string -> string)
    requires i < |citations| && Refers(p, citations, normalize)
    ensures Refers(p, citations[i := WithSpan(citations[i], span)], normalize)
  {
  }

  lemma WithSpanKeeps(c: Citation, span: Span)
    requires Distinct(c.spans)
    ensures var d := WithSpan(c, span);
            span in d.spans && Distinct(d.spans) && d.spans != [] && d.(spans := c.spans) == c && c.spans <= d.spans
  {
  }

  lemma {:induction false} TokensPrefix(passages: seq<Passage>, p: Passage, k: nat)
    requires k <= |passages|
    ensures Tokens(passages + [p], k) == Tokens(passages, k)
  {
    if k > 0 { TokensPrefix(passages, p, k - 1); }
  }

  lemma {:induction false} TokensOne(passages: seq<Passage>, p: Passage)
    ensures Tokens(passages + [p], |passages + [p]|) == Tokens(passages, |passages|) + p.chunk.tokenCount
  {
    TokensPrefix(passages, p, |passages|);
  }

  lemma AddKeeps(a: Assembled, item: Item, normalize: string -> string)
    requires AssembledOk(a, normalize)
    ensures InRange(a) && AssembledOk(Add(a, item, normalize), normalize)
  {
    assert forall key :: key in a.ids ==> KeyedAt(a.citations, a.ids, key, normalize);
    CiteKeeps(a, item.chunk, normalize);
    var (b, id) := Cite(a, item.chunk, normalize);
    PassageKeeps(a, b, Passage(item.chunk, item.score, id), normalize);
  }

  lemma PassageKeeps(a: Assembled, b: Assembled, p: Passage, normalize: string -> string)
    requires AssembledOk(a, normalize) && Cited(a, b, p.citationId, p.chunk, normalize)
    ensures AssembledOk(Append(b, p), normalize)
  {
    var i, span := p.citationId - 1, SpanOf(p.chunk);
    var cited := b.citations[i := WithSpan(b.citations[i], span)];
    assert Numbered(cited, b.ids, normalize) by { NumberedKeeps(b.citations, b.ids, i, span, normalize); }
    SpansKeep(a.citations, b.citations, i, span);
    assert AllRefer(a.passages + [p], cited, normalize) by {
      ReferencesKeep(a.passages, a.citations, b.citations, i, span, p, normalize);
    }
    TokensOne(a.passages, p);
    assert Append(b, p) == Assembled(a.passages + [p], cited, b.ids, a.tokens + p.chunk.tokenCount);
  }

  ghost predicate AllRefer(passages: seq<Passage>, citations: seq<Citation>, normalize: string -> string) {
    forall i :: 0 <= i < |passages| ==> Refers(passages[i], citations, normalize)
  }

  lemma ReferencesKeep(passages: seq<Passage>, citations: seq<Citation>, more: seq<Citation>, i: nat, span: Span,
                       p: Passage, normalize: string -> string)
    requires AllRefer(passages, citations, normalize) && citations <= more && i < |more|
    requires p.citationId == i + 1 && SpanOf(p.chunk) in WithSpan(more[i], span).spans
    requires CitationKey(more[i], normalize) == ChunkKey(p.chunk, normalize)
    ensures AllRefer(passages + [p], more[i := WithSpan(more[i], span)], normalize)
  {
    forall j | 0 <= j < |passages|
      ensures Refers(passages[j], more[i := WithSpan(more[i], span)], normalize)
    {
      ReferenceKeeps(citations, more, i, span, passages[j], normalize);
    }
  }

  /** No span is listed twice, and no citation is without one. */
  ghost predicate SpansOk(citations: seq<Citation>) {
    forall i :: 0 <= i < |citations| ==> citations[i].spans != [] && Distinct(citations[i].spans)
  }

  lemma SpansKeep(citations: seq<Citation>, more: seq<Citation>, i: nat, span: Span)
    requires SpansOk(citations) && citations <= more && |more| <= |citations| + 1 && i < |more|
    requires |more| > |citations| ==> i == |citations| && more[i].spans == []
    ensures SpansOk(more[i := WithSpan(more[i], span)]) && span in WithSpan(more[i], span).spans
  {
    assert i < |citations| ==> more[i] == citations[i];
    WithSpanKeeps(more[i], span);
  }

  lemma ReferenceKeeps(citations: seq<Citation>, more: seq<Citation>, i: nat, span: Span, p: Passage,
                       normalize: string -> string)
    requires Refers(p, citations, normalize) && citations <= more && i < |more|
    ensures Refers(p, more[i := WithSpan(more[i], span)], normalize)
  {
    assert more[p.citationId - 1] == citations[p.citationId - 1];
    SpanKeeps(more, i, span, p, normalize);
  }

  /** The whole assembly keeps its order, its numbering, both of its limits, and the exactness of every passage. */
  ghost predicate Promises(a: Assembled, budget: int, maxPassages: Option<nat>, normalize: string -> string) {
    && AssembledOk(a, normalize)
    && (a.passages == [] || a.tokens <= budget)
    && (maxPassages.Some? ==> |a.passages| <= maxPassages.value)
  }

  lemma {:induction false} AssemblyKeepsPromises(ranked: seq<Item>, budget: int, maxPassages: Option<nat>,
                                                 normalize: string -> string, k: nat)
    requires k <= |ranked|
    ensures Promises(AssembleUpTo(ranked, budget, maxPassages, normalize, k), budget, maxPassages, normalize)
  {
    if k > 0 {
      AssemblyKeepsPromises(ranked, budget, maxPassages, normalize, k - 1);
      var a := NextKeepsPromises(AssembleUpTo(ranked, budget, maxPassages, normalize, k - 1), ranked[k - 1],
                                 budget, maxPassages, normalize);
    }
  }

  lemma NextKeepsPromises(a: Assembled, item: Item, budget: int, maxPassages: Option<nat>, normalize: string -> string)
    returns (b: Assembled)
    requires InRange(a) && Promises(a, budget, maxPassages, normalize)
    ensures b == Next(a, item, budget, maxPassages, normalize) && Promises(b, budget, maxPassages, normalize)
  {
    b := Next(a, item, budget, maxPassages, normalize);
    if !Enough(a, maxPassages) {
      BudgetOf(item, budget - a.tokens);
      AcceptKeepsPromises(a, TruncateToBudget(item, budget - a.tokens), budget, maxPassages, normalize);
    }
  }

  lemma AcceptKeepsPromises(a: Assembled, cut: Option<Item>, budget: int, maxPassages: Option<nat>,
                            normalize: string -> string)
    requires InRange(a) && Promises(a, budget, maxPassages, normalize) && !Enough(a, maxPassages)
    requires cut.Some? ==> cut.value.chunk.tokenCount <= budget - a.tokens
    ensures Promises(Accept(a, cut, normalize), budget, maxPassages, normalize)
  {
    if cut.Some? { AddKeeps(a, cut.value, normalize); }
  }

  lemma BudgetOf(item: Item, budget: int)
    ensures TruncateToBudget(item, budget).Some? ==> TruncateToBudget(item, budget).value.chunk.tokenCount <= budget
  {
  }

  /** Once there are enough passages nothing more is taken, so the loop may stop there. */
  lemma {:induction false} EnoughIsFinal(ranked: seq<Item>, budget: int, maxPassages: Option<nat>,
                                         normalize: string -> string, j: nat, k: nat)
    requires j <= k <= |ranked| && Enough(AssembleUpTo(ranked, budget, maxPassages, normalize, j), maxPassages)
    ensures AssembleUpTo(ranked, budget, maxPassages, normalize, k) ==
            AssembleUpTo(ranked, budget, maxPassages, normalize, j)
    decreases k
  {
    if j < k { EnoughIsFinal(ranked, budget, maxPassages, normalize, j, k - 1); }
  }

  method Assemble(ranked: seq<Item>, budget: int, maxPassages: Option<nat>,
                  normalize: string -> string) returns (a: Assembled)
    ensures a == AssembleUpTo(ranked, budget, maxPassages, normalize, |ranked|)
  {
    a := Assembled([], [], map[], 0);
    for k := 0 to |ranked|
      invariant a == AssembleUpTo(ranked, budget, maxPassages, normalize, k)
    {
      if maxPassages.Some? && |a.passages| >= maxPassages.value {
        EnoughIsFinal(ranked, budget, maxPassages, normalize, k, |ranked|);
        return;
      }
      a := Take(a, ranked[k], budget, maxPassages, normalize);
    }
  }

  method Take(a: Assembled, item: Item, budget: int, ghost maxPassages: Option<nat>, normalize: string -> string)
    returns (b: Assembled)
    requires InRange(a) && !Enough(a, maxPassages)
    ensures b == Next(a, item, budget, maxPassages, normalize)
  {
    var cut := TruncateToBudget(item, budget - a.tokens);
    if cut.None? { return a; }
    b := Add(a, cut.value, normalize);
  }

  /** Whether the next item becomes a passage. */
  predicate Takes(a: Assembled, item: Item, budget: int, maxPassages: Option<nat>) {
    !Enough(a, maxPassages) && TruncateToBudget(item, budget - a.tokens).Some?
  }

  /** Which items became passages. */
  function TakenAt(ranked: seq<Item>, budget: int, maxPassages: Option<nat>, normalize: string -> string,
                   k: nat): seq<nat>
    requires k <= |ranked|
  {
    if k == 0 then []
    else
      var a := AssembleUpTo(ranked, budget, maxPassages, normalize, k - 1);
      TakenAt(ranked, budget, maxPassages, normalize, k - 1)
      + if Takes(a, ranked[k - 1], budget, maxPassages) then [k - 1] else []
  }

  /** A cut item is the ranked item or a prefix of its text, with its score, and exact if the item was. */
  ghost predicate Derived(cut: Item, item: Item, document: string) {
    cut.score == item.score && cut.chunk.text <= item.chunk.text && Exact(cut.chunk, document)
  }

  ghost predicate Derives(p: Passage, item: Item, document: string) {
    p.score == item.score && p.chunk.text <= item.chunk.text && Exact(p.chunk, document)
  }

  ghost predicate Follows(passages: seq<Passage>, at: seq<nat>, ranked: seq<Item>, documents: seq<string>, k: nat)
    requires |documents| == |ranked| && k <= |ranked|
  {
    && |at| == |passages|
    && (forall i, j :: 0 <= i < j < |at| ==> at[i] < at[j])
    && (forall i :: 0 <= i < |at| ==> at[i] < k && Derives(passages[i], ranked[at[i]], documents[at[i]]))
  }

  /** Passages follow the ranking: each is derived from a later item than the one before it. */
  lemma {:induction false} PassagesFollowRank(ranked: seq<Item>, budget: int, maxPassages: Option<nat>,
                                              normalize: string -> string, documents: seq<string>, k: nat)
    returns (a: Assembled, at: seq<nat>)
    requires |documents| == |ranked| && k <= |ranked|
    requires forall i :: 0 <= i < |ranked| ==> Exact(ranked[i].chunk, documents[i])
    ensures a == AssembleUpTo(ranked, budget, maxPassages, normalize, k)
    ensures at == TakenAt(ranked, budget, maxPassages, normalize, k)
    ensures Follows(a.passages, at, ranked, documents, k)
  {
    if k == 0 {
      a, at := Assembled([], [], map[], 0), [];
    } else {
      var was, before := PassagesFollowRank(ranked, budget, maxPassages, normalize, documents, k - 1);
      a, at := NextFollows(was, before, ranked, documents, k - 1, budget, maxPassages, normalize);
    }
  }

  lemma NextFollows(a: Assembled, at: seq<nat>, ranked: seq<Item>, documents: seq<string>, k: nat, budget: int,
                    maxPassages: Option<nat>, normalize: string -> string)
    returns (b: Assembled, more: seq<nat>)
    requires InRange(a) && |documents| == |ranked| && k < |ranked| && Follows(a.passages, at, ranked, documents, k)
    requires Exact(ranked[k].chunk, documents[k])
    ensures b == Next(a, ranked[k], budget, maxPassages, normalize)
    ensures more == at + if Takes(a, ranked[k], budget, maxPassages) then [k] else []
    ensures Follows(b.passages, more, ranked, documents, k + 1)
  {
    b := Next(a, ranked[k], budget, maxPassages, normalize);
    more := at + if Takes(a, ranked[k], budget, maxPassages) then [k] else [];
    if Enough(a, maxPassages) {
      assert at + [] == at;
    } else {
      var cut := TruncateToBudget(ranked[k], budget - a.tokens);
      if cut.Some? { CutIsDerived(ranked[k], budget - a.tokens, documents[k]); }
      AcceptFollows(a, cut, at, ranked, documents, k, normalize);
    }
  }

  lemma FollowsMore(passages: seq<Passage>, at: seq<nat>, ranked: seq<Item>, documents: seq<string>, k: nat, p: Passage)
    requires |documents| == |ranked| && k < |ranked| && Follows(passages, at, ranked, documents, k)
    requires Derives(p, ranked[k], documents[k])
    ensures Follows(passages + [p], at + [k], ranked, documents, k + 1)
  {
  }

  lemma AcceptFollows(a: Assembled, cut: Option<Item>, at: seq<nat>, ranked: seq<Item>, documents: seq<string>,
                      k: nat, normalize: string -> string)
    requires InRange(a) && |documents| == |ranked| && k < |ranked| && Follows(a.passages, at, ranked, documents, k)
    requires cut.Some? ==> Derived(cut.value, ranked[k], documents[k])
    ensures Follows(Accept(a, cut, normalize).passages, at + if cut.Some? then [k] else [], ranked, documents, k + 1)
  {
    if cut.Some? {
      FollowsMore(a.passages, at, ranked, documents, k,
                  Passage(cut.value.chunk, cut.value.score, Cite(a, cut.value.chunk, normalize).1));
    } else {
      assert at + [] == at;
    }
  }

  lemma CutIsDerived(item: Item, budget: int, document: string)
    requires Exact(item.chunk, document) && TruncateToBudget(item, budget).Some?
    ensures Derived(TruncateToBudget(item, budget).value, item, document)
  {
    BudgetCut(item, budget, document);
  }

  // ---------------------------------------------------------------- what the budget leaves room for

  /** The chunk itself if it is within the budget, and otherwise its first words, as many as the budget has. */
  predicate CutTo(c: Chunk, cut: Chunk, budget: int) {
    if c.tokenCount <= budget then cut == c
    else
      && cut.text != "" && cut.text <= c.text && !IsSpace(cut.text[|cut.text| - 1])
      && cut.tokenCount == Count(cut.text) == budget
      && Reidentified(c, cut)
  }

  /** A chunk above the budget can be cut to it if the budget has a word and its token count is its word count. */
  predicate Cuttable(c: Chunk, budget: int) {
    c.tokenCount <= budget || (budget >= 1 && c.tokenCount == Count(c.text))
  }

  lemma BudgetDecides(item: Item, budget: int)
    ensures var cut := TruncateToBudget(item, budget);
            && (cut.Some? <==> Cuttable(item.chunk, budget))
            && (cut.Some? ==> cut.value.score == item.score && CutTo(item.chunk, cut.value.chunk, budget))
  {
    var text := item.chunk.text;
    EndsMatchStarts(text, |text|);
    if 1 <= budget < item.chunk.tokenCount == |WordEnds(text, |text|)| {
      var e := WordEnds(text, |text|)[budget - 1];
      assert text[..e][..e] == text[..e];
      StartsPrefix(text[..e], text, e);
      assert text[..e][e - 1] == text[e - 1];
    }
  }

  /** There is room for the item behind the first m passages. */
  predicate HasRoom(passages: seq<Passage>, m: nat, item: Item, budget: int, maxPassages: Option<nat>)
    requires m <= |passages|
  {
    (maxPassages.Some? ==> m < maxPassages.value) && Cuttable(item.chunk, budget - Tokens(passages, m))
  }

  /** Passage m comes from the item, cut to what the passages before it leave of the budget. */
  predicate ComesFrom(passages: seq<Passage>, m: nat, item: Item, budget: int)
    requires m < |passages|
  {
    passages[m].score == item.score && CutTo(item.chunk, passages[m].chunk, budget - Tokens(passages, m))
  }

  ghost predicate AllComeFrom(passages: seq<Passage>, at: seq<nat>, ranked: seq<Item>, budget: int, k: nat)
    requires k <= |ranked|
  {
    && |at| == |passages|
    && (forall m :: 0 <= m < |at| ==> ComesFromAt(passages, m, ranked, at[m], budget, k))
    && (forall a, b :: 0 <= a < b < |at| ==> at[a] < at[b])
  }

  predicate ComesFromAt(passages: seq<Passage>, m: nat, ranked: seq<Item>, i: nat, budget: int, k: nat)
    requires m < |passages| && k <= |ranked|
  {
    i < k && ComesFrom(passages, m, ranked[i], budget)
  }

  ghost predicate AllIffRoom(passages: seq<Passage>, at: seq<nat>, ranked: seq<Item>, budget: int,
                             maxPassages: Option<nat>, k: nat)
    requires k <= |ranked| && |at| == |passages|
  {
    forall i, m :: 0 <= i < k && Before(at, i, m) ==>
      (i in at <==> HasRoom(passages, m, ranked[i], budget, maxPassages))
  }

  /** Of the first k items exactly those become passages that there is room for, and in their order. */
  ghost predicate TakenIffRoom(passages: seq<Passage>, at: seq<nat>, ranked: seq<Item>, budget: int,
                               maxPassages: Option<nat>, k: nat)
    requires k <= |ranked|
  {
    AllComeFrom(passages, at, ranked, budget, k) && AllIffRoom(passages, at, ranked, budget, maxPassages, k)
  }

  /** Nothing that fits is left out: an item becomes a passage if and only if there is room behind those before it. */
  lemma {:induction false} LeftOutOnlyForRoom(ranked: seq<Item>, budget: int, maxPassages: Option<nat>,
                                              normalize: string -> string, k: nat)
    returns (at: seq<nat>)
    requires k <= |ranked|
    ensures TakenIffRoom(AssembleUpTo(ranked, budget, maxPassages, normalize, k).passages, at, ranked, budget,
                         maxPassages, k)
  {
    if k == 0 {
      at := [];
    } else {
      var before := LeftOutOnlyForRoom(ranked, budget, maxPassages, normalize, k - 1);
      AssemblyKeepsPromises(ranked, budget, maxPassages, normalize, k - 1);
      at := TakeNext(AssembleUpTo(ranked, budget, maxPassages, normalize, k - 1), before, ranked, budget, maxPassages,
                     normalize, k);
    }
  }

  lemma TakeNext(a: Assembled, before: seq<nat>, ranked: seq<Item>, budget: int, maxPassages: Option<nat>,
                 normalize: string -> string, k: nat)
    returns (at: seq<nat>)
    requires 0 < k <= |ranked| && InRange(a) && a.tokens == Tokens(a.passages, |a.passages|)
    requires TakenIffRoom(a.passages, before, ranked, budget, maxPassages, k - 1)
    ensures TakenIffRoom(Next(a, ranked[k - 1], budget, maxPassages, normalize).passages, at, ranked, budget,
                         maxPassages, k)
  {
    var taken := NextDecides(a, ranked[k - 1], budget, maxPassages, normalize);
    if taken == [] {
      at := before;
      NotTaken(a.passages, at, ranked, budget, maxPassages, k);
    } else {
      at := before + [k - 1];
      TakeOne(a.passages, taken[0], before, ranked, budget, maxPassages, k);
    }
  }

  /** The next item becomes one more passage if there is room for it, and otherwise none. */
  lemma NextDecides(a: Assembled, item: Item, budget: int, maxPassages: Option<nat>, normalize: string -> string)
    returns (taken: seq<Passage>)
    requires InRange(a) && a.tokens == Tokens(a.passages, |a.passages|)
    ensures var b := Next(a, item, budget, maxPassages, normalize);
            if HasRoom(a.passages, |a.passages|, item, budget, maxPassages) then
              && |taken| == 1 && b.passages == a.passages + [taken[0]]
              && taken[0].score == item.score && CutTo(item.chunk, taken[0].chunk, budget - a.tokens)
            else taken == [] && b.passages == a.passages
  {
    BudgetDecides(item, budget - a.tokens);
    var cut := TruncateToBudget(item, budget - a.tokens);
    taken := if Enough(a, maxPassages) || cut.None? then []
             else [Passage(cut.value.chunk, cut.value.score, Cite(a, cut.value.chunk, normalize).1)];
  }

  lemma {:induction false} TakeOne(passages: seq<Passage>, p: Passage, before: seq<nat>, ranked: seq<Item>, budget: int,
                                   maxPassages: Option<nat>, k: nat)
    requires 0 < k <= |ranked| && TakenIffRoom(passages, before, ranked, budget, maxPassages, k - 1)
    requires HasRoom(passages, |passages|, ranked[k - 1], budget, maxPassages)
    requires p.score == ranked[k - 1].score
    requires CutTo(ranked[k - 1].chunk, p.chunk, budget - Tokens(passages, |passages|))
    ensures TakenIffRoom(passages + [p], before + [k - 1], ranked, budget, maxPassages, k)
  {
    LastComesFrom(passages, p, ranked, budget, k);
    OneComesFrom(passages, p, before, ranked, budget, k);
    OneIffRoom(passages, p, before, ranked, budget, maxPassages, k);
  }

  lemma NotTaken(passages: seq<Passage>, at: seq<nat>, ranked: seq<Item>, budget: int, maxPassages: Option<nat>, k: nat)
    requires 0 < k <= |ranked| && TakenIffRoom(passages, at, ranked, budget, maxPassages, k - 1)
    requires !HasRoom(passages, |passages|, ranked[k - 1], budget, maxPassages)
    ensures TakenIffRoom(passages, at, ranked, budget, maxPassages, k)
  {
    forall i, m | 0 <= i < k && Before(at, i, m)
      ensures i in at <==> HasRoom(passages, m, ranked[i], budget, maxPassages)
    {
      BeforeLast(at, at, i, m, k - 1);
      if i == k - 1 { assert at != at + [k - 1]; }
    }
  }

  lemma OneComesFrom(passages: seq<Passage>, p: Passage, at: seq<nat>, ranked: seq<Item>, budget: int, k: nat)
    requires 0 < k <= |ranked| && AllComeFrom(passages, at, ranked, budget, k - 1)
    requires ComesFromAt(passages + [p], |passages|, ranked, k - 1, budget, k)
    ensures AllComeFrom(passages + [p], at + [k - 1], ranked, budget, k)
  {
    var later := at + [k - 1];
    assert forall m :: 0 <= m < |at| ==> later[m] == at[m];
    forall m | 0 <= m < |later|
      ensures ComesFromAt(passages + [p], m, ranked, later[m], budget, k)
    {
      if m < |at| { StillComesFrom(passages, p, m, ranked, at[m], budget, k); }
    }
  }

  lemma StillComesFrom(passages: seq<Passage>, p: Passage, m: nat, ranked: seq<Item>, i: nat, budget: int, k: nat)
    requires m < |passages| && 0 < k <= |ranked| && ComesFromAt(passages, m, ranked, i, budget, k - 1)
    ensures ComesFromAt(passages + [p], m, ranked, i, budget, k)
  {
    TokensPrefix(passages, p, m);
    assert (passages + [p])[m] == passages[m];
  }

  lemma {:induction false} LastComesFrom(passages: seq<Passage>, p: Passage, ranked: seq<Item>, budget: int, k: nat)
    requires 0 < k <= |ranked| && p.score == ranked[k - 1].score
    requires CutTo(ranked[k - 1].chunk, p.chunk, budget - Tokens(passages, |passages|))
    ensures ComesFromAt(passages + [p], |passages|, ranked, k - 1, budget, k)
  {
    TokensPrefix(passages, p, |passages|);
    assert (passages + [p])[|passages|] == p;
  }

  lemma OneIffRoom(passages: seq<Passage>, p: Passage, at: seq<nat>, ranked: seq<Item>, budget: int,
                   maxPassages: Option<nat>, k: nat)
    requires 0 < k <= |ranked| && TakenIffRoom(passages, at, ranked, budget, maxPassages, k - 1)
    requires HasRoom(passages, |passages|, ranked[k - 1], budget, maxPassages)
    ensures AllIffRoom(passages + [p], at + [k - 1], ranked, budget, maxPassages, k)
  {
    var more, later := passages + [p], at + [k - 1];
    forall i, m | 0 <= i < k && Before(later, i, m)
      ensures i in later <==> HasRoom(more, m, ranked[i], budget, maxPassages)
    {
      BeforeLast(at, later, i, m, k - 1);
      TokensPrefix(passages, p, m);
    }
  }

  /** What a document is known by. */
  function Document(documentId: Option<string>, url: string, normalize: string -> string): string {
    match documentId
    case Some(id) => if id == "" then normalize(url) else id
    case None => normalize(url)
  }

  /** Two passages of an assembly refer to one citation if and only if they come from one document. */
  lemma {:induction false} SameCitationIff(ranked: seq<Item>, budget: int, maxPassages: Option<nat>,
                                           normalize: string -> string, m: nat, n: nat)
    requires var a := AssembleUpTo(ranked, budget, maxPassages, normalize, |ranked|);
             m < |a.passages| && n < |a.passages|
    ensures var a := AssembleUpTo(ranked, budget, maxPassages, normalize, |ranked|);
            var c, d := a.passages[m].chunk, a.passages[n].chunk;
            a.passages[m].citationId == a.passages[n].citationId <==>
            Document(c.documentId, c.sourceUrl, normalize) == Document(d.documentId, d.sourceUrl, normalize)
  {
    AssemblyKeepsPromises(ranked, budget, maxPassages, normalize, |ranked|);
    SameCitation(AssembleUpTo(ranked, budget, maxPassages, normalize, |ranked|), m, n, normalize);
  }

  lemma SameCitation(a: Assembled, m: nat, n: nat, normalize: string -> string)
    requires Numbered(a.citations, a.ids, normalize) && AllRefer(a.passages, a.citations, normalize)
    requires m < |a.passages| && n < |a.passages|
    ensures var c, d := a.passages[m].chunk, a.passages[n].chunk;
            a.passages[m].citationId == a.passages[n].citationId <==>
            Document(c.documentId, c.sourceUrl, normalize) == Document(d.documentId, d.sourceUrl, normalize)
  {
    assert Refers(a.passages[m], a.citations, normalize) && Refers(a.passages[n], a.citations, normalize);
    assert NumberedAt(a.citations, a.ids, a.passages[m].citationId - 1, normalize);
    assert NumberedAt(a.citations, a.ids, a.passages[n].citationId - 1, normalize);
  }
}
