/**
 * Evidence items on their way to an answer: truncated to whole prefixes, bounded in wire bytes. A binary search stands
 * in for the longest prefix that fits; whatever is cut, a verbatim item stays an exact slice of its document.
 */
module Evidence {
  import opened Options
  import opened Texts
  import opened Words

  const MAX_PASSAGES := 50
  const MAX_EVIDENCE_ITEM_BYTES := 65536
  const MAX_EVIDENCE_BYTES := 262144

  /** An evidence identifier stands for what it hashes. */
  datatype EvidenceId = EvidenceId(finalUrl: string, digest: string, start: nat, end: nat)

  datatype Chunk = Chunk(
    text: string,
    tokenCount: nat,
    sourceUrl: string,
    documentId: Option<string>,
    finalUrl: Option<string>,
    digest: Option<string>,
    start: Option<nat>,
    end: Option<nat>,
    verbatim: bool,
    evidenceId: Option<EvidenceId>,
    section: Option<string>)

  /** A scored chunk; `rest` is the wire size of everything truncation leaves alone. */
  datatype Item = Item(chunk: Chunk, score: real, rest: nat)

  /** How many bytes a character takes on the wire, escaped and encoded, and how many an identifier takes. */
  datatype Wire = Wire(bytes: char -> nat, idBytes: nat)

  // ---------------------------------------------------------------- truncation

  predicate PreservesIdentity(c: Chunk) {
    c.verbatim && c.documentId.Some? && c.finalUrl.Some? && c.digest.Some? && c.start.Some?
  }

  /** The item cut after `end` characters; it stays verbatim only if everything that identifies it is known. */
  function Truncate(item: Item, end: nat, tokenCount: nat): Item
    requires end <= |item.chunk.text|
  {
    var c := item.chunk;
    var keep := PreservesIdentity(c);
    item.(chunk := c.(
      text := c.text[..end],
      tokenCount := tokenCount,
      start := if keep then c.start else None,
      end := if keep then Some(c.start.value + end) else None,
      verbatim := keep,
      evidenceId := if keep
                    then Some(EvidenceId(c.finalUrl.value, c.digest.value, c.start.value, c.start.value + end))
                    else None))
  }

  function TruncateToCharCount(item: Item, count: int): Option<Item> {
    var text := item.chunk.text;
    if |text| <= count then Some(item)
    else if count < 1 then None
    else
      var e := Trimmed(text, count);
      var tokens := Count(text[..e]);
      if e == 0 || tokens < 1 then None else Some(Truncate(item, e, tokens))
  }

  /** A verbatim item is the slice of its document that its span says. */
  predicate Exact(c: Chunk, document: string) {
    c.verbatim ==>
      && c.start.Some? && c.end.Some?
      && c.start.value <= c.end.value <= |document|
      && document[c.start.value..c.end.value] == c.text
  }

  /** Cutting an exact item leaves an exact item, which begins where it began. */
  lemma TruncateIsExact(item: Item, end: nat, tokenCount: nat, document: string)
    requires Exact(item.chunk, document) && end <= |item.chunk.text|
    ensures Exact(Truncate(item, end, tokenCount).chunk, document)
    ensures Truncate(item, end, tokenCount).chunk.text <= item.chunk.text
  {
    var c := item.chunk;
    if PreservesIdentity(c) {
      var s := c.start.value;
      assert document[s..s + end] == document[s..c.end.value][..end];
    }
  }

  lemma TruncatedIsExact(item: Item, count: int, document: string)
    requires Exact(item.chunk, document) && TruncateToCharCount(item, count).Some?
    ensures Exact(TruncateToCharCount(item, count).value.chunk, document)
  {
    if 1 <= count < |item.chunk.text| {
      var e := Trimmed(item.chunk.text, count);
      TruncateIsExact(item, e, Count(item.chunk.text[..e]), document);
    }
  }

  /**
   A cut below the text's length keeps what is left of that many characters without white space at the end, counts its
   words and is identified anew; a cut of white space alone is none.
   */
  lemma CutDecides(item: Item, count: nat)
    requires 1 <= count < |item.chunk.text|
    ensures var text := item.chunk.text; var cut := TruncateToCharCount(item, count);
            && (cut.None? <==> Blank(text[..count]))
            && (cut.Some? ==>
                  && IsCut(text, cut.value.chunk.text, count)
                  && cut.value.chunk.tokenCount == Count(cut.value.chunk.text)
                  && cut.value.score == item.score && cut.value.rest == item.rest
                  && Reidentified(item.chunk, cut.value.chunk))
  {
    var text := item.chunk.text;
    var e := Trimmed(text, count);
    CountZeroIffBlank(text[..e]);
    assert forall i :: 0 <= i < e ==> text[..e][i] == text[..count][i] == text[i];
    if e > 0 { assert !IsSpace(text[..e][e - 1]); }
  }

  /**
   A cut is verbatim if and only if the chunk is and everything that identifies it is known; its span is then shortened
   with its text, and its identifier is that of the shorter span. Otherwise it has neither.
   */
  predicate Reidentified(c: Chunk, cut: Chunk) {
    && (cut.verbatim <==> c.verbatim && c.documentId.Some? && c.finalUrl.Some? && c.digest.Some? && c.start.Some?)
    && (cut.verbatim ==>
          && cut.start == c.start && cut.end == Some(c.start.value + |cut.text|)
          && cut.evidenceId
               == Some(EvidenceId(c.finalUrl.value, c.digest.value, c.start.value, c.start.value + |cut.text|)))
    && (!cut.verbatim ==> cut.start.None? && cut.end.None? && cut.evidenceId.None?)
    && cut.sourceUrl == c.sourceUrl && cut.documentId == c.documentId && cut.section == c.section
  }

  /** A prefix of at most that many characters, after which only white space was dropped. */
  predicate IsCut(text: string, cut: string, count: nat)
    requires count <= |text|
  {
    && cut <= text && 0 < |cut| <= count && !IsSpace(cut[|cut| - 1])
    && forall i :: |cut| <= i < count ==> IsSpace(text[i])
  }

  // ---------------------------------------------------------------- wire size

  function Digits(n: nat): nat {
    if n < 10 then 1 else 1 + Digits(n / 10)
  }

  /** An absent number is written `null`. */
  function OptionDigits(n: Option<nat>): nat {
    if n.None? then 4 else Digits(n.value)
  }

  function TextBytes(text: string, w: Wire, k: nat): nat
    requires k <= |text|
  {
    if k == 0 then 0 else TextBytes(text, w, k - 1) + w.bytes(text[k - 1])
  }

  function Size(item: Item, w: Wire): nat {
    var c := item.chunk;
    item.rest + TextBytes(c.text, w, |c.text|) + Digits(c.tokenCount) + OptionDigits(c.start) + OptionDigits(c.end)
    + (if c.verbatim then 4 else 5) + (if c.evidenceId.None? then 4 else w.idBytes)
  }

  lemma {:induction false} DigitsMonotone(m: nat, n: nat)
    requires m <= n
    ensures Digits(m) <= Digits(n)
  {
    if m >= 10 { DigitsMonotone(m / 10, n / 10); }
  }

  lemma {:induction false} TrimmedMonotone(text: string, j: nat, k: nat)
    requires j <= k <= |text|
    ensures Trimmed(text, j) <= Trimmed(text, k)
    decreases k
  {
    if j < k && IsSpace(text[k - 1]) {
      TrimmedMonotone(text, j, k - 1);
    }
  }

  lemma {:induction false} TextBytesPrefix(text: string, w: Wire, j: nat, k: nat)
    requires j <= k <= |text|
    ensures TextBytes(text[..k], w, j) == TextBytes(text, w, j)
  {
    if j > 0 { TextBytesPrefix(text, w, j - 1, k); }
  }

  lemma {:induction false} TextBytesMonotone(text: string, w: Wire, j: nat, k: nat)
    requires j <= k <= |text|
    ensures TextBytes(text, w, j) <= TextBytes(text, w, k)
  {
    if j < k { TextBytesMonotone(text, w, j, k - 1); }
  }

  /** A longer cut is no smaller on the wire, digit widths of token count and end index included. */
  lemma TruncateSizeMonotone(item: Item, w: Wire, d: nat, e: nat)
    requires d <= e <= |item.chunk.text|
    ensures var text := item.chunk.text;
            Size(Truncate(item, d, Count(text[..d])), w) <= Size(Truncate(item, e, Count(text[..e])), w)
  {
    var c := item.chunk;
    TextBytesPrefix(c.text, w, d, d);
    TextBytesPrefix(c.text, w, e, e);
    TextBytesMonotone(c.text, w, d, e);
    assert c.text[..e] == c.text[..d] + c.text[d..e];
    CountAppend(c.text[..d], c.text[d..e]);
    DigitsMonotone(Count(c.text[..d]), Count(c.text[..e]));
    if PreservesIdentity(c) { DigitsMonotone(c.start.value + d, c.start.value + e); }
  }

  // ---------------------------------------------------------------- the longest prefix that fits

  /** The cut at k characters exists and fits. */
  predicate Fits(item: Item, w: Wire, k: nat) {
    var cut := TruncateToCharCount(item, k);
    cut.Some? && Size(cut.value, w) <= MAX_EVIDENCE_ITEM_BYTES
  }

  /** The largest of the lengths up to k at which a cut fits, if there is any. */
  ghost predicate IsLongest(item: Item, w: Wire, k: nat, best: Option<nat>) {
    && (best.Some? ==> 1 <= best.value <= k && Fits(item, w, best.value))
    && forall j :: (if best.Some? then best.value + 1 else 1) <= j <= k ==> !Fits(item, w, j)
  }

  /** The largest cut up to k that fits, tried one by one. */
  function LongestFit(item: Item, w: Wire, k: nat): (best: Option<nat>)
    ensures IsLongest(item, w, k, best)
  {
    if k == 0 then None else if Fits(item, w, k) then Some(k) else LongestFit(item, w, k - 1)
  }

  datatype Fitted = Fitted(item: Option<Item>, bytes: nat)

  /** An item that fits is left alone; another is cut to its longest fitting prefix, if there is one. */
  function FittedItem(item: Item, w: Wire): Fitted {
    var size := Size(item, w);
    if size <= MAX_EVIDENCE_ITEM_BYTES then Fitted(Some(item), size)
    else if item.chunk.text == "" then Fitted(None, size)
    else CutAt(item, w, LongestFit(item, w, |item.chunk.text| - 1))
  }

  function CutAt(item: Item, w: Wire, best: Option<nat>): Fitted
    requires best.Some? ==> Fits(item, w, best.value)
  {
    if best.None? then Fitted(None, Size(item, w))
    else
      var cut := TruncateToCharCount(item, best.value).value;
      Fitted(Some(cut), Size(cut, w))
  }

  /** Proper cuts are missing below some length and grow from there on. */
  lemma CutsOrdered(item: Item, w: Wire, j: nat, k: nat)
    requires 1 <= j <= k < |item.chunk.text| && TruncateToCharCount(item, j).Some?
    ensures var a, b := TruncateToCharCount(item, j), TruncateToCharCount(item, k);
            b.Some? && Size(a.value, w) <= Size(b.value, w)
  {
    var text := item.chunk.text;
    TrimmedMonotone(text, j, k);
    var d, e := Trimmed(text, j), Trimmed(text, k);
    TruncateSizeMonotone(item, w, d, e);
    CountZeroIffBlank(text[..e]);
    assert !IsSpace(text[..e][e - 1]);
  }

  /** What the search knows: everything below the window is missing or fits, everything above it is too large. */
  ghost predicate Searching(item: Item, w: Wire, lower: int, upper: int, best: Option<nat>) {
    && 1 <= lower <= upper + 1 <= |item.chunk.text|
    && (forall k :: upper < k < |item.chunk.text| ==> !Fits(item, w, k))
    && if best.None? then forall k :: 1 <= k < lower ==> !Fits(item, w, k)
       else 1 <= best.value < lower && Fits(item, w, best.value) && forall k :: best.value < k < lower ==>
           !Fits(item, w, k)
  }

  /** A cut that does not exist moves the window above it. */
  lemma MissingCut(item: Item, w: Wire, lower: int, upper: int, best: Option<nat>, m: nat)
    requires Searching(item, w, lower, upper, best) && lower <= m <= upper && TruncateToCharCount(item, m).None?
    ensures Searching(item, w, m + 1, upper, best)
  {
    forall k | 1 <= k <= m
      ensures !Fits(item, w, k)
    {
      if Fits(item, w, k) { CutsOrdered(item, w, k, m); }
    }
  }

  /** One that is too large moves it below. */
  lemma LargeCut(item: Item, w: Wire, lower: int, upper: int, best: Option<nat>, m: nat)
    requires Searching(item, w, lower, upper, best) && lower <= m <= upper
    requires TruncateToCharCount(item, m).Some? && !Fits(item, w, m)
    ensures Searching(item, w, lower, m - 1, best)
  {
    forall k | m <= k < |item.chunk.text|
      ensures !Fits(item, w, k)
    {
      CutsOrdered(item, w, m, k);
    }
  }

  /** One that fits is the best so far. */
  lemma FittingCut(item: Item, w: Wire, lower: int, upper: int, best: Option<nat>, m: nat)
    requires Searching(item, w, lower, upper, best) && lower <= m <= upper && Fits(item, w, m)
    ensures Searching(item, w, m + 1, upper, Some(m))
    ensures var cut := TruncateToCharCount(item, m).value;
            CutAt(item, w, Some(m)) == Fitted(Some(cut), Size(cut, w))
  {
  }

  lemma LongestIsUnique(item: Item, w: Wire, k: nat, a: Option<nat>, b: Option<nat>)
    requires IsLongest(item, w, k, a) && IsLongest(item, w, k, b)
    ensures a == b
  {
  }

  lemma SearchEnds(item: Item, w: Wire, lower: int, upper: int, best: Option<nat>)
    requires Searching(item, w, lower, upper, best) && lower > upper
    ensures IsLongest(item, w, |item.chunk.text| - 1, best)
  {
    forall j: nat | (if best.Some? then best.value + 1 else 1) <= j <= |item.chunk.text| - 1
      ensures !Fits(item, w, j)
    {
      if j >= lower { assert j > upper; }
    }
  }

  /** The binary search finds what trying every prefix would find. */
  method FitEvidenceItem(item: Item, w: Wire) returns (r: Fitted)
    ensures r == FittedItem(item, w)
  {
    var original := Size(item, w);
    if original <= MAX_EVIDENCE_ITEM_BYTES { return Fitted(Some(item), original); }
    if item.chunk.text == "" { return Fitted(None, original); }
    r := SearchPrefix(item, w, original);
  }

  method SearchPrefix(item: Item, w: Wire, original: nat) returns (r: Fitted)
    requires item.chunk.text != "" && original == Size(item, w)
    ensures r == CutAt(item, w, LongestFit(item, w, |item.chunk.text| - 1))
  {
    var text := item.chunk.text;
    var lower, upper := 1, |text| - 1;
    r := Fitted(None, original);
    ghost var best: Option<nat> := None;
    while lower <= upper
      invariant Searching(item, w, lower, upper, best)
      invariant r == CutAt(item, w, best)
      decreases upper + 1 - lower
    {
      var midpoint := (lower + upper) / 2;
      assert lower <= midpoint <= upper;
      var candidate := TruncateToCharCount(item, midpoint);
      if candidate.None? {
        MissingCut(item, w, lower, upper, best, midpoint);
        lower := midpoint + 1;
      } else {
        var bytes := Size(candidate.value, w);
        if bytes <= MAX_EVIDENCE_ITEM_BYTES {
          FittingCut(item, w, lower, upper, best, midpoint);
          r, best := Fitted(candidate, bytes), Some(midpoint);
          lower := midpoint + 1;
        } else {
          LargeCut(item, w, lower, upper, best, midpoint);
          upper := midpoint - 1;
        }
      }
    }
    SearchEnds(item, w, lower, upper, best);
    LongestIsUnique(item, w, |text| - 1, best, LongestFit(item, w, |text| - 1));
  }

  // ---------------------------------------------------------------- bounding the whole list

  datatype Bounded = Bounded(items: seq<Item>, usedBytes: nat, omitted: nat, omittedBytes: nat)

  /** Whether a fitted item is kept: if there is one, if there is room, and if the bytes allow it. */
  predicate Kept(b: Bounded, fitted: Fitted) {
    && fitted.item.Some? && |b.items| < MAX_PASSAGES
    && b.usedBytes + fitted.bytes + (if b.items == [] then 0 else 1) <= MAX_EVIDENCE_BYTES
  }

  function Keep(b: Bounded, fitted: Fitted): Bounded {
    if Kept(b, fitted)
    then b.(items := b.items + [fitted.item.value],
            usedBytes := b.usedBytes + fitted.bytes + if b.items == [] then 0 else 1)
    else b.(omitted := b.omitted + 1, omittedBytes := b.omittedBytes + fitted.bytes)
  }

  /** What fitting yields for each item. */
  function FittedAll(ranked: seq<Item>, w: Wire): (fs: seq<Fitted>) {
    seq(|ranked|, i requires 0 <= i < |ranked| => FittedItem(ranked[i], w))
  }

  function KeepAll(fs: seq<Fitted>, k: nat): Bounded
    requires k <= |fs|
  {
    if k == 0 then Bounded([], 2, 0, 0) else Keep(KeepAll(fs, k - 1), fs[k - 1])
  }

  method BoundEvidence(ranked: seq<Item>, w: Wire) returns (b: Bounded)
    ensures b == KeepAll(FittedAll(ranked, w), |ranked|)
  {
    b := Bounded([], 2, 0, 0);
    for k := 0 to |ranked|
      invariant b == KeepAll(FittedAll(ranked, w), k)
    {
      var fitted := FitEvidenceItem(ranked[k], w);
      assert fitted == FittedAll(ranked, w)[k];
      b := KeepItem(b, fitted);
    }
  }

  method KeepItem(b: Bounded, fitted: Fitted) returns (r: Bounded)
    ensures r == Keep(b, fitted)
  {
    var additional := fitted.bytes + if b.items == [] then 0 else 1;
    if fitted.item.None? || |b.items| >= MAX_PASSAGES || b.usedBytes + additional > MAX_EVIDENCE_BYTES {
      return b.(omitted := b.omitted + 1, omittedBytes := b.omittedBytes + fitted.bytes);
    }
    r := b.(items := b.items + [fitted.item.value], usedBytes := b.usedBytes + additional);
  }

  /** The bytes of the first k items as the elements of an array: a pair of brackets, and commas in between. */
  function ArrayBytes(items: seq<Item>, w: Wire, k: nat): nat
    requires k <= |items|
  {
    if k == 0 then 2 else ArrayBytes(items, w, k - 1) + Size(items[k - 1], w) + if k == 1 then 0 else 1
  }

  function OfferedBytes(fs: seq<Fitted>, k: nat): nat
    requires k <= |fs|
  {
    if k == 0 then 0 else OfferedBytes(fs, k - 1) + fs[k - 1].bytes
  }

  lemma {:induction false} ArrayBytesPrefix(items: seq<Item>, more: seq<Item>, w: Wire, k: nat)
    requires k <= |items|
    ensures ArrayBytes(items + more, w, k) == ArrayBytes(items, w, k)
  {
    if k > 0 { ArrayBytesPrefix(items, more, w, k - 1); }
  }

  /** After n items of so many bytes: every limit is obeyed, and each item and byte is kept or reported as omitted. */
  ghost predicate Accounted(b: Bounded, w: Wire, n: nat, offered: nat) {
    && |b.items| <= MAX_PASSAGES
    && ArrayBytes(b.items, w, |b.items|) == b.usedBytes <= MAX_EVIDENCE_BYTES
    && (forall i :: 0 <= i < |b.items| ==> Size(b.items[i], w) <= MAX_EVIDENCE_ITEM_BYTES)
    && |b.items| + b.omitted == n
    && b.usedBytes + b.omittedBytes == 2 + offered + if b.items == [] then 0 else |b.items| - 1
  }

  /** What fitting promises of its result: its size is known and within the limit of one item. */
  ghost predicate Sized(f: Fitted, w: Wire) {
    f.item.Some? ==> Size(f.item.value, w) == f.bytes <= MAX_EVIDENCE_ITEM_BYTES
  }

  lemma FittedIsSized(item: Item, w: Wire)
    ensures Sized(FittedItem(item, w), w)
  {
  }

  lemma KeepAccounts(b: Bounded, w: Wire, n: nat, offered: nat, fitted: Fitted)
    requires Accounted(b, w, n, offered) && Sized(fitted, w)
    ensures Accounted(Keep(b, fitted), w, n + 1, offered + fitted.bytes)
  {
    if Kept(b, fitted) {
      ArrayBytesPrefix(b.items, [fitted.item.value], w, |b.items|);
    }
  }

  lemma {:induction false} KeepAllAccounts(fs: seq<Fitted>, w: Wire, k: nat)
    requires k <= |fs| && forall i :: 0 <= i < |fs| ==> Sized(fs[i], w)
    ensures Accounted(KeepAll(fs, k), w, k, OfferedBytes(fs, k))
  {
    if k > 0 {
      KeepAllAccounts(fs, w, k - 1);
      KeepAccounts(KeepAll(fs, k - 1), w, k - 1, OfferedBytes(fs, k - 1), fs[k - 1]);
    }
  }

  /** The kept list obeys every limit, its bytes are counted exactly, and nothing is lost. */
  lemma {:induction false} EvidenceIsBounded(ranked: seq<Item>, w: Wire)
    ensures var fs := FittedAll(ranked, w);
            Accounted(KeepAll(fs, |ranked|), w, |ranked|, OfferedBytes(fs, |ranked|))
  {
    var fs := FittedAll(ranked, w);
    forall i | 0 <= i < |fs|
      ensures Sized(fs[i], w)
    {
      FittedIsSized(ranked[i], w);
    }
    KeepAllAccounts(fs, w, |ranked|);
  }

  /** The positions of the kept items among those offered. */
  function KeptAt(fs: seq<Fitted>, k: nat): seq<nat>
    requires k <= |fs|
  {
    if k == 0 then [] else KeptAt(fs, k - 1) + if Kept(KeepAll(fs, k - 1), fs[k - 1]) then [k - 1] else []
  }

  /** The items at rising positions. */
  ghost predicate Picks(fs: seq<Fitted>, items: seq<Item>, at: seq<nat>, k: nat)
    requires k <= |fs|
  {
    && |at| == |items|
    && (forall a, b :: 0 <= a < b < |at| ==> at[a] < at[b])
    && (forall a :: 0 <= a < |at| ==> at[a] < k && fs[at[a]].item == Some(items[a]))
  }

  /** What is kept are fitted items, in rank order. */
  lemma {:induction false} KeptArePicked(fs: seq<Fitted>, k: nat)
    requires k <= |fs|
    ensures Picks(fs, KeepAll(fs, k).items, KeptAt(fs, k), k)
  {
    if k > 0 { KeptArePicked(fs, k - 1); }
  }

  /** An item is left as it is if it fits, and otherwise cut to the longest prefix that fits; none if no prefix does. */
  lemma FittedDecides(item: Item, w: Wire)
    ensures var f := FittedItem(item, w); var n := |item.chunk.text|;
            if Size(item, w) <= MAX_EVIDENCE_ITEM_BYTES then f == Fitted(Some(item), Size(item, w))
            else if f.item.None? then f.bytes == Size(item, w) && forall k :: 1 <= k < n ==> !Fits(item, w, k)
            else
              && f.bytes == Size(f.item.value, w)
              && exists k :: 1 <= k < n && Fits(item, w, k) && TruncateToCharCount(item, k) == f.item
                   && forall j :: k < j < n ==> !Fits(item, w, j)
  {
    if Size(item, w) > MAX_EVIDENCE_ITEM_BYTES && item.chunk.text != "" {
      assert IsLongest(item, w, |item.chunk.text| - 1, LongestFit(item, w, |item.chunk.text| - 1));
    }
  }

  /** The first m of the positions are those before i. */
  predicate Before(at: seq<nat>, i: nat, m: nat) {
    m <= |at| && (forall a :: 0 <= a < m ==> at[a] < i) && (forall a :: m <= a < |at| ==> i <= at[a])
  }

  /** There is room for a fitted item behind the first m of those kept. */
  predicate Affordable(items: seq<Item>, w: Wire, m: nat, f: Fitted)
    requires m <= |items|
  {
    && f.item.Some? && m < MAX_PASSAGES
    && ArrayBytes(items, w, m) + Size(f.item.value, w) + (if m == 0 then 0 else 1) <= MAX_EVIDENCE_BYTES
  }

  /** Each of the first k items is kept if and only if there is room for it behind those kept before it. */
  ghost predicate KeptIffRoom(fs: seq<Fitted>, items: seq<Item>, at: seq<nat>, w: Wire, k: nat)
    requires k <= |fs| && |at| == |items|
  {
    forall i, m :: 0 <= i < k && Before(at, i, m) ==> (i in at <==> Affordable(items, w, m, fs[i]))
  }

  lemma {:induction false} KeptIffRoomUpTo(fs: seq<Fitted>, w: Wire, k: nat)
    requires k <= |fs| && forall i :: 0 <= i < |fs| ==> Sized(fs[i], w)
    ensures Picks(fs, KeepAll(fs, k).items, KeptAt(fs, k), k)
    ensures KeptIffRoom(fs, KeepAll(fs, k).items, KeptAt(fs, k), w, k)
  {
    KeptArePicked(fs, k);
    if k > 0 {
      KeptIffRoomUpTo(fs, w, k - 1);
      KeepAllAccounts(fs, w, k - 1);
      var at := KeptAt(fs, k);
      forall i, m | 0 <= i < k && Before(at, i, m)
        ensures i in at <==> Affordable(KeepAll(fs, k).items, w, m, fs[i])
      {
        KeptStep(fs, w, k, i, m);
      }
    }
  }

  lemma KeptStep(fs: seq<Fitted>, w: Wire, k: nat, i: nat, m: nat)
    requires i < k <= |fs| && Sized(fs[i], w) && Before(KeptAt(fs, k), i, m)
    requires Picks(fs, KeepAll(fs, k - 1).items, KeptAt(fs, k - 1), k - 1)
    requires KeptIffRoom(fs, KeepAll(fs, k - 1).items, KeptAt(fs, k - 1), w, k - 1)
    requires Accounted(KeepAll(fs, k - 1), w, k - 1, OfferedBytes(fs, k - 1))
    ensures m <= |KeepAll(fs, k).items|
    ensures i in KeptAt(fs, k) <==> Affordable(KeepAll(fs, k).items, w, m, fs[i])
  {
    var b, before := KeepAll(fs, k - 1), KeptAt(fs, k - 1);
    BeforeLast(before, KeptAt(fs, k), i, m, k - 1);
    if Kept(b, fs[k - 1]) { ArrayBytesPrefix(b.items, [fs[k - 1].item.value], w, m); }
    if i == k - 1 {
      assert i in KeptAt(fs, k) <==> Kept(b, fs[k - 1]);
    }
  }

  lemma BeforeLast(before: seq<nat>, at: seq<nat>, i: nat, m: nat, last: nat)
    requires (forall a :: 0 <= a < |before| ==> before[a] < last) && (at == before || at == before + [last])
    requires i <= last && Before(at, i, m)
    ensures m <= |before| && Before(before, i, m)
    ensures i == last ==> m == |before| && i !in before && (i in at <==> at == before + [last])
    ensures i < last ==> (i in at <==> i in before)
  {
    assert forall a :: 0 <= a < |before| ==> at[a] == before[a];
    assert forall x :: x in before ==> x < last;
    var next := if m < |before| then at[m] else last;
    assert next <= last;
    if at == before + [last] {
      assert at[|before|] == last;
      assert last in at;
    }
  }

  /**
   The list keeps every item it can: one is left out only if no cut of it fits, if there are as many passages as may be
   before it, or if its bytes behind those of the items kept before it would exceed the limit.
   */
  lemma {:induction false} LeftOutOnlyForRoom(ranked: seq<Item>, w: Wire) returns (at: seq<nat>)
    ensures var fs := FittedAll(ranked, w); var items := KeepAll(fs, |ranked|).items;
            Picks(fs, items, at, |ranked|) && KeptIffRoom(fs, items, at, w, |ranked|)
  {
    var fs := FittedAll(ranked, w);
    forall i | 0 <= i < |fs|
      ensures Sized(fs[i], w)
    {
      FittedIsSized(ranked[i], w);
    }
    KeptIffRoomUpTo(fs, w, |ranked|);
    at := KeptAt(fs, |ranked|);
  }

  lemma FittedIsExact(item: Item, w: Wire, document: string)
    requires Exact(item.chunk, document) && FittedItem(item, w).item.Some?
    ensures Exact(FittedItem(item, w).item.value.chunk, document)
  {
    if Size(item, w) > MAX_EVIDENCE_ITEM_BYTES {
      TruncatedIsExact(item, LongestFit(item, w, |item.chunk.text| - 1).value, document);
    }
  }

  /** Exact items stay exact, each of its own document. */
  lemma {:induction false} KeptAreExact(ranked: seq<Item>, w: Wire, documents: seq<string>, a: nat)
    requires |documents| == |ranked| && forall i :: 0 <= i < |ranked| ==> Exact(ranked[i].chunk, documents[i])
    requires a < |KeepAll(FittedAll(ranked, w), |ranked|).items|
    ensures var fs := FittedAll(ranked, w); var at := KeptAt(fs, |ranked|);
            && a < |at| && at[a] < |ranked|
            && Exact(KeepAll(fs, |ranked|).items[a].chunk, documents[at[a]])
  {
    var fs := FittedAll(ranked, w);
    KeptArePicked(fs, |ranked|);
    var i := KeptAt(fs, |ranked|)[a];
    assert fs[i] == FittedItem(ranked[i], w);
    FittedIsExact(ranked[i], w, documents[i]);
  }
}
