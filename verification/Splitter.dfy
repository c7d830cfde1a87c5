/** The recursive splitter that cuts a document into small segments at natural boundaries. */
module Splitter {
  import opened Seqs
  import opened Words

  /** The segment size in words; the splitter is only defined for at least one. */
  type Size = n: int | n >= 1 witness 1

  const DEFAULT_SEPARATORS: seq<string> :=
    ["\n\n", "\n", ". ", "! ", "? ", "; ", ", ", " ", ""]

  // ---------------------------------------------------------------- searching

  predicate OccursAt(text: string, sep: string, i: nat) {
    i + |sep| <= |text| && text[i..i + |sep|] == sep
  }

  /** The first occurrence of sep at or after a position, or -1. */
  function IndexFrom(text: string, sep: string, start: nat): (r: int)
    requires start <= |text|
    ensures r == -1 || (start <= r && OccursAt(text, sep, r))
    ensures forall i :: start <= i && (r == -1 || i < r) ==> !OccursAt(text, sep, i)
    decreases |text| - start
  {
    if OccursAt(text, sep, start) then start
    else if start == |text| then -1
    else IndexFrom(text, sep, start + 1)
  }

  function Index(text: string, sep: string): int {
    IndexFrom(text, sep, 0)
  }

  predicate Contains(text: string, sep: string) {
    Index(text, sep) >= 0
  }

  /** The last position of c in [lo, hi), or -1. */
  function LastIndex(text: string, c: char, lo: nat, hi: nat): (r: int)
    requires lo <= hi <= |text|
    ensures r == -1 || (lo <= r < hi && text[r] == c)
    ensures forall i :: lo <= i < hi && (r == -1 || r < i) ==> text[i] != c
    decreases hi - lo
  {
    if lo == hi then -1 else if text[hi - 1] == c then hi - 1 else LastIndex(text, c, lo, hi - 1)
  }

  // ---------------------------------------------------------------- choosing a separator

  datatype Choice = Choice(separator: string, finer: seq<string>)

  /** The first separator present in the text, with those after it. */
  function Best(text: string, separators: seq<string>, otherwise: string): Choice {
    if separators == [] then Choice(otherwise, [])
    else if separators[0] == "" then Choice("", [])
    else if Contains(text, separators[0]) then Choice(separators[0], separators[1..])
    else Best(text, separators[1..], otherwise)
  }

  function Fallback(separators: seq<string>): string {
    if separators != [] then separators[|separators| - 1] else ""
  }

  lemma {:induction false} BestIsFiner(text: string, separators: seq<string>, otherwise: string)
    ensures var c := Best(text, separators, otherwise);
            |c.finer| < |separators| || (separators == [] && c.finer == [])
  {
    if separators != [] && separators[0] != "" && !Contains(text, separators[0]) {
      BestIsFiner(text, separators[1..], otherwise);
    }
  }

  /** A separator that can be taken: it occurs in the text, or it is the empty one, which cuts anywhere. */
  predicate Usable(text: string, sep: string) {
    sep == "" || exists j :: 0 <= j < |text| && OccursAt(text, sep, j)
  }

  ghost predicate NoneUsable(text: string, separators: seq<string>, k: nat)
    requires k <= |separators|
  {
    forall i :: 0 <= i < k ==> !Usable(text, separators[i])
  }

  /** Separator i is the first that can be taken, and exactly those after it are finer. */
  ghost predicate ChosenAt(text: string, separators: seq<string>, i: nat, c: Choice)
    requires i < |separators|
  {
    && NoneUsable(text, separators, i) && Usable(text, separators[i]) && c.separator == separators[i]
    && c.finer == if separators[i] == "" then [] else separators[i + 1..]
  }

  /** The first separator that can be taken is, at index i; if there is none, the last one stands, with none finer. */
  lemma {:induction false} BestByIndex(text: string, separators: seq<string>, k: nat, otherwise: string)
    returns (i: nat)
    requires k <= |separators| && NoneUsable(text, separators, k)
    ensures k <= i <= |separators|
    ensures var c := Best(text, separators[k..], otherwise);
            if i < |separators| then ChosenAt(text, separators, i, c)
            else NoneUsable(text, separators, i) && c == Choice(otherwise, [])
    decreases |separators| - k
  {
    i := k;
    if k < |separators| {
      DropHead(separators, k);
      UsableIffContained(text, separators[k]);
      if Usable(text, separators[k]) {
        assert ChosenAt(text, separators, k, Best(text, separators[k..], otherwise));
      } else {
        assert Best(text, separators[k..], otherwise) == Best(text, separators[k + 1..], otherwise);
        i := BestByIndex(text, separators, k + 1, otherwise);
      }
    }
  }

  lemma UsableIffContained(text: string, sep: string)
    ensures Usable(text, sep) <==> sep == "" || Contains(text, sep)
  {
    if sep != "" && Contains(text, sep) { assert OccursAt(text, sep, Index(text, sep)); }
  }

  method FindBestSeparator(text: string, separators: seq<string>) returns (c: Choice)
    ensures c == Best(text, separators, Fallback(separators))
    ensures || (exists i :: 0 <= i < |separators| && ChosenAt(text, separators, i, c))
            || (NoneUsable(text, separators, |separators|) && c.finer == []
                && c.separator == if separators == [] then "" else separators[|separators| - 1])
  {
    ghost var first := BestByIndex(text, separators, 0, Fallback(separators));
    Units(separators);
    var otherwise := if separators != [] then separators[|separators| - 1] else "";
    for i := 0 to |separators|
      invariant Best(text, separators, otherwise) == Best(text, separators[i..], otherwise)
    {
      var sep := separators[i];
      if sep == "" {
        return Choice(sep, []);
      }
      if Contains(text, sep) {
        assert separators[i..][1..] == separators[i + 1..];
        return Choice(sep, separators[i + 1..]);
      }
      assert separators[i..][1..] == separators[i + 1..];
    }
    return Choice(otherwise, []);
  }

  // ---------------------------------------------------------------- cutting at one separator

  /** What a regular-expression split on a captured literal yields: texts and separators in alternation. */
  function SplitKeeping(text: string, sep: string): (parts: seq<string>)
    requires sep != ""
    ensures |parts| % 2 == 1
    decreases |text|
  {
    var i := Index(text, sep);
    if i < 0 then [text] else [text[..i], sep] + SplitKeeping(text[i + |sep|..], sep)
  }

  /** The pieces of text, each but the last running through the next separator. */
  function Pieces(text: string, sep: string): seq<string>
    requires sep != ""
    decreases |text|
  {
    var i := Index(text, sep);
    if i >= 0 then [text[..i + |sep|]] + Pieces(text[i + |sep|..], sep)
    else if text == "" then []
    else [text]
  }

  lemma OccursInPrefix(text: string, sep: string, end: nat, j: nat)
    requires end <= |text| && j + |sep| <= end
    ensures OccursAt(text[..end], sep, j) <==> OccursAt(text, sep, j)
  {
    assert text[..end][j..j + |sep|] == text[j..j + |sep|];
  }

  /** Every piece stops at its first separator, and only the last piece may have none. */
  lemma {:induction false} PieceEndsAtSeparator(text: string, sep: string, k: nat)
    requires sep != "" && k < |Pieces(text, sep)|
    ensures var pieces := Pieces(text, sep);
            && (Contains(pieces[k], sep) ==> Index(pieces[k], sep) + |sep| == |pieces[k]|)
            && (k < |pieces| - 1 ==> Contains(pieces[k], sep))
    decreases k
  {
    var i := Index(text, sep);
    if i >= 0 {
      if k == 0 {
        FirstPiece(text, sep);
      } else {
        PieceEndsAtSeparator(text[i + |sep|..], sep, k - 1);
      }
    }
  }

  lemma FirstPiece(text: string, sep: string)
    requires sep != "" && Contains(text, sep)
    ensures Index(text[..Index(text, sep) + |sep|], sep) == Index(text, sep)
  {
    var i := Index(text, sep);
    var first := text[..i + |sep|];
    forall j | 0 <= j <= i
      ensures OccursAt(first, sep, j) <==> j == i
    {
      OccursInPrefix(text, sep, i + |sep|, j);
    }
    var r := Index(first, sep);
    assert OccursAt(first, sep, i);
    assert 0 <= r <= i && OccursAt(first, sep, r);
  }

  /** Pairing each text with the separator after it, empty results dropped. */
  function Glue(parts: seq<string>): seq<string> {
    if parts == [] then []
    else if |parts| == 1 then (if parts[0] == "" then [] else parts)
    else (if parts[0] + parts[1] == "" then [] else [parts[0] + parts[1]]) + Glue(parts[2..])
  }

  lemma {:induction false} GlueIsPieces(text: string, sep: string)
    requires sep != ""
    ensures Glue(SplitKeeping(text, sep)) == Pieces(text, sep)
    decreases |text|
  {
    var i := Index(text, sep);
    if i >= 0 {
      var parts := SplitKeeping(text, sep);
      GlueIsPieces(text[i + |sep|..], sep);
      assert parts[2..] == SplitKeeping(text[i + |sep|..], sep);
      assert parts[0] + parts[1] == text[..i + |sep|];
    }
  }

  method SplitWithSeparator(text: string, separator: string) returns (result: seq<string>)
    ensures separator == "" ==> result == [text]
    ensures separator != "" ==> result == Pieces(text, separator)
  {
    if separator == "" {
      return [text];
    }
    var parts := SplitKeeping(text, separator);
    result := [];
    Units(parts);
    Units(Glue(parts));
    var i := 0;
    while i < |parts|
      invariant 0 <= i <= |parts| + 1 && i % 2 == 0
      invariant i <= |parts| ==> result + Glue(parts[i..]) == Glue(parts)
      invariant i > |parts| ==> result == Glue(parts)
    {
      var piece := parts[i];
      if i + 1 < |parts| {
        piece := piece + parts[i + 1];
        GlueStep(parts, i);
        Assoc(result, [piece], Glue(parts[i + 2..]));
        Units(Glue(parts[i + 2..]));
      } else {
        GlueEnd(parts);
        Units(result);
      }
      if piece != "" {
        result := result + [piece];
      }
      i := i + 2;
    }
    GlueIsPieces(text, separator);
  }

  lemma GlueStep(parts: seq<string>, i: nat)
    requires i + 1 < |parts|
    ensures Glue(parts[i..]) ==
            (if parts[i] + parts[i + 1] == "" then [] else [parts[i] + parts[i + 1]]) + Glue(parts[i + 2..])
  {
    DropDrop(parts, i, 2);
  }

  lemma GlueEnd(parts: seq<string>)
    requires parts != []
    ensures var last := parts[|parts| - 1]; Glue(parts[|parts| - 1..]) == if last == "" then [] else [last]
  {
    DropHead(parts, |parts| - 1);
    Units(parts);
  }

  function Chars(text: string): seq<string> {
    seq(|text|, i requires 0 <= i < |text| => [text[i]])
  }

  /** The splits of one level: pieces at a separator, or single characters. */
  function Splits(text: string, separator: string): seq<string> {
    if separator != "" then Pieces(text, separator) else Chars(text)
  }

  // ---------------------------------------------------------------- merging small splits

  /** Packing splits i and later onto a chunk already begun, which uses `used` words of the size. */
  function PackedFrom(splits: seq<string>, i: nat, chunk: string, used: nat, size: Size): seq<string>
    requires i <= |splits|
    decreases |splits| - i
  {
    if i == |splits| then [chunk]
    else
      var words := Count(splits[i]);
      if used + words > size then [chunk] + PackedFrom(splits, i + 1, splits[i], words, size)
      else PackedFrom(splits, i + 1, chunk + splits[i], used + words, size)
  }

  /** The chunks that begin at split i. */
  function PackedTail(splits: seq<string>, i: nat, size: Size): seq<string>
    requires i <= |splits|
  {
    if i == |splits| then [] else PackedFrom(splits, i + 1, splits[i], Count(splits[i]), size)
  }

  function Packed(splits: seq<string>, size: Size): seq<string> {
    PackedTail(splits, 0, size)
  }

  method MergeSplits(splits: seq<string>, size: Size) returns (mergedChunks: seq<string>)
    ensures mergedChunks == Packed(splits, size)
  {
    if splits == [] {
      return [];
    }
    mergedChunks := [];
    var currentChunk: seq<string> := [];
    var currentLength: nat := 0;
    for i := 0 to |splits|
      invariant i == 0 <==> currentChunk == []
      invariant i == 0 ==> mergedChunks == [] && currentLength == 0
      invariant i > 0 ==>
        mergedChunks + PackedFrom(splits, i, Join(currentChunk), currentLength, size) == Packed(splits, size)
    {
      var split := splits[i];
      var splitLength := Count(split);
      JoinOne(split);
      JoinSnoc(currentChunk, split);
      Units(Packed(splits, size));
      if currentLength + splitLength > size && currentChunk != [] {
        Assoc(mergedChunks, [Join(currentChunk)], PackedFrom(splits, i + 1, split, splitLength, size));
        mergedChunks := mergedChunks + [Join(currentChunk)];
        currentChunk := [];
        currentLength := 0;
      }
      Units([split]);
      currentChunk := currentChunk + [split];
      currentLength := currentLength + splitLength;
    }
    if currentChunk != [] {
      mergedChunks := mergedChunks + [Join(currentChunk)];
    }
  }

  /** The first split that no longer fits once `used` words are taken. */
  function FitEnd(splits: seq<string>, i: nat, used: nat, size: Size): (k: nat)
    requires i <= |splits|
    ensures i <= k <= |splits|
    decreases |splits| - i
  {
    if i == |splits| || used + Count(splits[i]) > size then i
    else FitEnd(splits, i + 1, used + Count(splits[i]), size)
  }

  lemma {:induction false} FitEndIsMaximal(splits: seq<string>, i: nat, used: nat, size: Size)
    requires i <= |splits|
    ensures var k := FitEnd(splits, i, used, size);
            && (k > i ==> used + CountRange(splits, i, k) <= size)
            && (k < |splits| ==> used + CountRange(splits, i, k) + Count(splits[k]) > size)
    decreases |splits| - i
  {
    if i < |splits| && used + Count(splits[i]) <= size {
      FitEndIsMaximal(splits, i + 1, used + Count(splits[i]), size);
    }
  }

  lemma {:induction false} PackedFromGreedy(splits: seq<string>, i: nat, chunk: string, used: nat, size: Size)
    requires i <= |splits|
    ensures var k := FitEnd(splits, i, used, size);
            PackedFrom(splits, i, chunk, used, size) == [chunk + JoinRange(splits, i, k)] + PackedTail(splits, k, size)
    decreases |splits| - i
  {
    var k := FitEnd(splits, i, used, size);
    if k > i {
      PackedFromGreedy(splits, i + 1, chunk + splits[i], used + Count(splits[i]), size);
      Assoc(chunk, splits[i], JoinRange(splits, i + 1, k));
    } else {
      Units(chunk);
    }
  }

  /** Greedy packing: each chunk takes one split and every further split that still fits, no fewer. */
  lemma PackedIsGreedy(splits: seq<string>, i: nat, size: Size)
    requires i < |splits|
    ensures var k := FitEnd(splits, i + 1, Count(splits[i]), size);
            && PackedTail(splits, i, size) == [JoinRange(splits, i, k)] + PackedTail(splits, k, size)
            && (k > i + 1 ==> CountRange(splits, i, k) <= size)
            && (k < |splits| ==> CountRange(splits, i, k) + Count(splits[k]) > size)
  {
    PackedFromGreedy(splits, i + 1, splits[i], Count(splits[i]), size);
    FitEndIsMaximal(splits, i + 1, Count(splits[i]), size);
    var k := FitEnd(splits, i + 1, Count(splits[i]), size);
    assert JoinRange(splits, i, k) == splits[i] + JoinRange(splits, i + 1, k);
    assert CountRange(splits, i, k) == Count(splits[i]) + CountRange(splits, i + 1, k);
  }

  lemma {:induction false} PackedFromLossless(splits: seq<string>, i: nat, chunk: string, used: nat, size: Size)
    requires i <= |splits|
    ensures Join(PackedFrom(splits, i, chunk, used, size)) == chunk + JoinRange(splits, i, |splits|)
    decreases |splits| - i
  {
    JoinOne(chunk);
    if i == |splits| {
      Units(chunk);
    } else if used + Count(splits[i]) > size {
      PackedFromLossless(splits, i + 1, splits[i], Count(splits[i]), size);
      JoinAppend([chunk], PackedFrom(splits, i + 1, splits[i], Count(splits[i]), size));
    } else {
      PackedFromLossless(splits, i + 1, chunk + splits[i], used + Count(splits[i]), size);
      Assoc(chunk, splits[i], JoinRange(splits, i + 1, |splits|));
    }
  }

  lemma {:induction false} PackedFromWithin(splits: seq<string>, i: nat, chunk: string, used: nat, size: Size)
    requires i <= |splits| && Count(chunk) <= used <= size && Within(splits, size)
    ensures Within(PackedFrom(splits, i, chunk, used, size), size)
    decreases |splits| - i
  {
    if i < |splits| {
      var words := Count(splits[i]);
      if used + words > size {
        PackedFromWithin(splits, i + 1, splits[i], words, size);
      } else {
        CountAppend(chunk, splits[i]);
        PackedFromWithin(splits, i + 1, chunk + splits[i], used + words, size);
      }
    }
  }

  lemma {:induction false} PackedFromNoneEmpty(splits: seq<string>, i: nat, chunk: string, used: nat, size: Size)
    requires i <= |splits| && chunk != "" && NoneEmpty(splits)
    ensures NoneEmpty(PackedFrom(splits, i, chunk, used, size))
    decreases |splits| - i
  {
    if i < |splits| {
      var words := Count(splits[i]);
      if used + words > size {
        PackedFromNoneEmpty(splits, i + 1, splits[i], words, size);
      } else {
        PackedFromNoneEmpty(splits, i + 1, chunk + splits[i], used + words, size);
      }
    }
  }

  /** Packing loses nothing, leaves no chunk empty and, for splits that fit, keeps every chunk in size. */
  lemma PackedSound(splits: seq<string>, size: Size)
    ensures Join(Packed(splits, size)) == Join(splits)
    ensures Within(splits, size) ==> Within(Packed(splits, size), size)
    ensures NoneEmpty(splits) ==> NoneEmpty(Packed(splits, size))
  {
    if splits != [] {
      PackedFromLossless(splits, 1, splits[0], Count(splits[0]), size);
      if Within(splits, size) { PackedFromWithin(splits, 1, splits[0], Count(splits[0]), size); }
      if NoneEmpty(splits) { PackedFromNoneEmpty(splits, 1, splits[0], Count(splits[0]), size); }
    }
  }

  // ---------------------------------------------------------------- splitting by size

  function Max(a: int, b: int): int {
    if a > b then a else b
  }

  function TargetChars(text: string, size: Size): nat {
    size * Max(1, |text| / Max(1, Count(text)))
  }

  /** Where the forced piece that starts here ends: after the last blank in reach, if there is one. */
  function ForcedEnd(text: string, start: nat, target: nat): (end: nat)
    requires start < |text| && target >= 1
    ensures start < end <= |text|
    ensures start + target >= |text| ==> end == |text|
    ensures start + target < |text| ==>
              if forall i :: start < i < start + target ==> text[i] != ' ' then end == start + target
              else
                && end <= start + target && text[end - 1] == ' '
                && forall i :: end <= i < start + target ==> text[i] != ' '
  {
    if start + target < |text| then
      var space := LastIndex(text, ' ', start, start + target);
      if space > start then space + 1 else start + target
    else |text|
  }

  function Forced(text: string, start: nat, target: nat): seq<string>
    requires start <= |text| && target >= 1
    decreases |text| - start
  {
    if start == |text| then []
    else var end := ForcedEnd(text, start, target); [text[start..end]] + Forced(text, end, target)
  }

  lemma {:induction false} ForcedLossless(text: string, start: nat, target: nat)
    requires start <= |text| && target >= 1
    ensures Join(Forced(text, start, target)) == text[start..]
    ensures NoneEmpty(Forced(text, start, target))
    decreases |text| - start
  {
    if start < |text| {
      var end := ForcedEnd(text, start, target);
      ForcedLossless(text, end, target);
      JoinAppend([text[start..end]], Forced(text, end, target));
      JoinOne(text[start..end]);
      assert text[start..] == text[start..end] + text[end..];
    }
  }

  lemma TargetPositive(text: string, size: Size)
    ensures TargetChars(text, size) >= 1
  {
    assert size * Max(1, |text| / Max(1, Count(text))) >= size;
  }

  function ForcedBySize(text: string, size: Size): seq<string> {
    TargetPositive(text, size);
    Forced(text, 0, TargetChars(text, size))
  }

  method ForceSplitBySize(text: string, size: Size) returns (chunks: seq<string>)
    ensures chunks == ForcedBySize(text, size)
  {
    var charsPerToken := Max(1, |text| / Max(1, Count(text)));
    var targetChars := size * charsPerToken;
    TargetPositive(text, size);
    chunks := [];
    var start := 0;
    while start < |text|
      invariant 0 <= start <= |text|
      invariant chunks + Forced(text, start, targetChars) == ForcedBySize(text, size)
    {
      var end := if start + targetChars < |text| then start + targetChars else |text|;
      if end < |text| {
        var spaceIdx := LastIndex(text, ' ', start, end);
        if spaceIdx > start {
          end := spaceIdx + 1;
        }
      }
      assert end == ForcedEnd(text, start, targetChars);
      Assoc(chunks, [text[start..end]], Forced(text, end, targetChars));
      chunks := chunks + [text[start..end]];
      start := end;
    }
  }

  // ---------------------------------------------------------------- the recursion

  /** The end of the run of splits from i on that fit on their own. */
  function SmallEnd(splits: seq<string>, i: nat, size: Size): (k: nat)
    requires i <= |splits|
    ensures i <= k <= |splits|
    ensures forall x :: i <= x < k ==> Count(splits[x]) <= size
    ensures k < |splits| ==> Count(splits[k]) > size
    decreases |splits| - i
  {
    if i == |splits| || Count(splits[i]) > size then i else SmallEnd(splits, i + 1, size)
  }

  /**
   The segments of a text. Runs of small splits are packed; a split too large for one segment is split
   again with the finer separators, or handed to `force` when none are left.
   */
  ghost function Segments(text: string, separators: seq<string>, size: Size, force: string -> seq<string>): seq<string>
    decreases Max(2, 2 * |separators|), 0, 0
  {
    var c := Best(text, separators, Fallback(separators));
    BestIsFiner(text, separators, Fallback(separators));
    Emitted(Splits(text, c.separator), 0, c.finer, size, force)
  }

  /** What one split too large for a segment becomes. */
  ghost function Refined(split: string, finer: seq<string>, size: Size, force: string -> seq<string>): seq<string>
    decreases 2 * |finer| + 1, 0, 0
  {
    if finer != [] then Segments(split, finer, size, force) else force(split)
  }

  /** The segments that splits i and later become. */
  ghost function Emitted(splits: seq<string>, i: nat, finer: seq<string>, size: Size, force: string -> seq<string>)
    : seq<string>
    requires i <= |splits|
    decreases 2 * |finer| + 1, 1, |splits| - i
  {
    if i == |splits| then []
    else if Count(splits[i]) > size then
      Refined(splits[i], finer, size, force) + Emitted(splits, i + 1, finer, size, force)
    else
      var k := SmallEnd(splits, i, size);
      Packed(splits[i..k], size) + Emitted(splits, k, finer, size, force)
  }

  /**
   A split above the size is cut with the finer separators, or by force if there are none; the splits between two such
   ones, which fit, are packed together. So it goes on to the last split.
   */
  lemma {:induction false} RunsArePacked(splits: seq<string>, i: nat, k: nat, finer: seq<string>, size: Size,
                                         force: string -> seq<string>)
    requires i < k <= |splits|
    ensures Count(splits[i]) > size && k == i + 1 ==>
              Emitted(splits, i, finer, size, force)
              == (if finer != [] then Segments(splits[i], finer, size, force) else force(splits[i]))
                 + Emitted(splits, k, finer, size, force)
    ensures (forall x :: i <= x < k ==> Count(splits[x]) <= size) && (k < |splits| ==> Count(splits[k]) > size) ==>
              Emitted(splits, i, finer, size, force)
              == Packed(splits[i..k], size) + Emitted(splits, k, finer, size, force)
    ensures Emitted(splits, |splits|, finer, size, force) == []
  {
    var end := SmallEnd(splits, i, size);
    assert Count(splits[i]) <= size ==> end > i;
    assert i < end < |splits| ==> Count(splits[end]) > size;
  }

  ghost function ForceOf(size: Size): string -> seq<string> {
    s => ForcedBySize(s, size)
  }

  /** The loop has gathered the small splits [start, i). */
  ghost predicate Gathered(good: seq<string>, splits: seq<string>, start: nat, i: nat, size: Size) {
    start <= i <= |splits| && i <= SmallEnd(splits, start, size) && good == splits[start..i]
  }

  lemma GatherOne(good: seq<string>, splits: seq<string>, start: nat, i: nat, size: Size)
    requires Gathered(good, splits, start, i, size) && i < |splits| && Count(splits[i]) <= size
    ensures Gathered(good + [splits[i]], splits, start, i + 1, size)
  {
  }

  lemma GatherNone(splits: seq<string>, i: nat, size: Size)
    requires i <= |splits|
    ensures Gathered([], splits, i, i, size)
  {
  }

  /** Ending a run of small splits emits its packing. */
  lemma {:induction false} EmittedRun(done: seq<string>, good: seq<string>, splits: seq<string>, start: nat, i: nat,
                                      finer: seq<string>, size: Size, force: string -> seq<string>)
    requires Gathered(good, splits, start, i, size) && (i < |splits| ==> Count(splits[i]) > size)
    ensures done + Emitted(splits, start, finer, size, force)
         == (if good != [] then done + Packed(good, size) else done) + Emitted(splits, i, finer, size, force)
  {
    if start < i {
      Assoc(done, Packed(good, size), Emitted(splits, i, finer, size, force));
    }
  }

  /** A large split ends the run before it and is emitted in finer segments. */
  lemma EmittedBig(done: seq<string>, good: seq<string>, splits: seq<string>, start: nat, i: nat, finer: seq<string>,
                   size: Size, force: string -> seq<string>)
    requires Gathered(good, splits, start, i, size) && i < |splits| && Count(splits[i]) > size
    ensures done + Emitted(splits, start, finer, size, force)
         == (if good != [] then done + Packed(good, size) else done)
            + Refined(splits[i], finer, size, force) + Emitted(splits, i + 1, finer, size, force)
  {
    EmittedRun(done, good, splits, start, i, finer, size, force);
    Assoc(if good != [] then done + Packed(good, size) else done,
          Refined(splits[i], finer, size, force), Emitted(splits, i + 1, finer, size, force));
  }

  method SplitTextRecursive(text: string, separators: seq<string>, size: Size) returns (finalChunks: seq<string>)
    ensures finalChunks == Segments(text, separators, size, ForceOf(size))
    decreases Max(2, 2 * |separators|), 0
  {
    var choice := FindBestSeparator(text, separators);
    BestIsFiner(text, separators, Fallback(separators));
    var separator, newSeparators := choice.separator, choice.finer;
    var splits;
    if separator != "" {
      splits := SplitWithSeparator(text, separator);
    } else {
      splits := Chars(text);
    }
    SplitsSound(text, separator);
    finalChunks := SplitEach(splits, newSeparators, size);
  }

  /** Small splits are gathered and packed; a large one ends the run before it and is split with finer separators. */
  method SplitEach(splits: seq<string>, newSeparators: seq<string>, size: Size) returns (finalChunks: seq<string>)
    requires NoneEmpty(splits)
    ensures finalChunks == Emitted(splits, 0, newSeparators, size, ForceOf(size))
    decreases 2 * |newSeparators| + 1, 1
  {
    finalChunks := [];
    ghost var force, start := ForceOf(size), 0;
    ghost var goal := Emitted(splits, 0, newSeparators, size, force);
    var goodSplits: seq<string> := [];
    Units(goal);
    GatherNone(splits, 0, size);
    for i := 0 to |splits|
      invariant Gathered(goodSplits, splits, start, i, size)
      invariant finalChunks + Emitted(splits, start, newSeparators, size, force) == goal
    {
      var split := splits[i];
      if split == "" {
        assert false;
        continue;
      }
      if Count(split) <= size {
        GatherOne(goodSplits, splits, start, i, size);
        goodSplits := goodSplits + [split];
      } else {
        EmittedBig(finalChunks, goodSplits, splits, start, i, newSeparators, size, force);
        finalChunks := FlushRun(finalChunks, goodSplits, size);
        goodSplits := [];
        var finer := RefineSplit(split, newSeparators, size);
        finalChunks := finalChunks + finer;
        start := i + 1;
        GatherNone(splits, start, size);
      }
    }
    EmittedRun(finalChunks, goodSplits, splits, start, |splits|, newSeparators, size, force);
    finalChunks := FlushRun(finalChunks, goodSplits, size);
    Units(finalChunks);
  }

  method FlushRun(finalChunks: seq<string>, goodSplits: seq<string>, size: Size) returns (r: seq<string>)
    ensures r == if goodSplits != [] then finalChunks + Packed(goodSplits, size) else finalChunks
  {
    r := finalChunks;
    if goodSplits != [] {
      var merged := MergeSplits(goodSplits, size);
      r := r + merged;
    }
  }

  method RefineSplit(split: string, newSeparators: seq<string>, size: Size) returns (r: seq<string>)
    ensures r == Refined(split, newSeparators, size, ForceOf(size))
    decreases 2 * |newSeparators| + 1, 0
  {
    if newSeparators != [] {
      r := SplitTextRecursive(split, newSeparators, size);
    } else {
      r := ForceSplitBySize(split, size);
    }
  }

  // ---------------------------------------------------------------- lossless and bounded

  lemma {:induction false} PiecesSound(text: string, sep: string)
    requires sep != ""
    ensures Join(Pieces(text, sep)) == text
    ensures NoneEmpty(Pieces(text, sep))
    decreases |text|
  {
    var i := Index(text, sep);
    if i >= 0 {
      var first, rest := text[..i + |sep|], Pieces(text[i + |sep|..], sep);
      PiecesSound(text[i + |sep|..], sep);
      JoinAppend([first], rest);
      JoinOne(first);
      Cut(text, i + |sep|);
    } else {
      JoinOne(text);
    }
  }

  lemma {:induction false} CharsSound(text: string, i: nat)
    requires i <= |text|
    ensures JoinRange(Chars(text), i, |text|) == text[i..]
    decreases |text| - i
  {
    if i < |text| {
      CharsSound(text, i + 1);
      DropHead(text, i);
    }
  }

  lemma SplitsSound(text: string, separator: string)
    ensures Join(Splits(text, separator)) == text
    ensures NoneEmpty(Splits(text, separator))
  {
    if separator != "" {
      PiecesSound(text, separator);
    } else {
      CharsSound(text, 0);
      Units(text);
    }
  }

  ghost predicate Lossless(force: string -> seq<string>) {
    forall s :: Join(force(s)) == s && NoneEmpty(force(s))
  }

  lemma {:induction false} PackedRun(splits: seq<string>, i: nat, k: nat, size: Size)
    requires i <= k <= |splits| && NoneEmpty(splits)
    ensures Join(Packed(splits[i..k], size)) == JoinRange(splits, i, k)
    ensures NoneEmpty(Packed(splits[i..k], size))
  {
    PackedSound(splits[i..k], size);
    RangeShift(splits[i..k], splits, 0, k - i, i);
  }

  lemma {:induction false} EmittedLossless(splits: seq<string>, i: nat, finer: seq<string>, size: Size,
                                           force: string -> seq<string>)
    requires i <= |splits| && Lossless(force) && NoneEmpty(splits)
    ensures Join(Emitted(splits, i, finer, size, force)) == JoinRange(splits, i, |splits|)
    ensures NoneEmpty(Emitted(splits, i, finer, size, force))
    decreases 2 * |finer| + 1, 1, |splits| - i
  {
    if i < |splits| {
      if Count(splits[i]) > size {
        if finer != [] { SegmentsLossless(splits[i], finer, size, force); }
        EmittedLossless(splits, i + 1, finer, size, force);
        JoinAppend(Refined(splits[i], finer, size, force), Emitted(splits, i + 1, finer, size, force));
      } else {
        var k := SmallEnd(splits, i, size);
        PackedRun(splits, i, k, size);
        EmittedLossless(splits, k, finer, size, force);
        JoinAppend(Packed(splits[i..k], size), Emitted(splits, k, finer, size, force));
        RangeSplit(splits, i, k, |splits|);
      }
    }
  }

  /** Whatever the separators, the segments concatenate to the text and none is empty. */
  lemma {:induction false} SegmentsLossless(text: string, separators: seq<string>, size: Size,
                                            force: string -> seq<string>)
    requires Lossless(force)
    ensures Join(Segments(text, separators, size, force)) == text
    ensures NoneEmpty(Segments(text, separators, size, force))
    decreases Max(2, 2 * |separators|), 0, 0
  {
    var c := Best(text, separators, Fallback(separators));
    BestIsFiner(text, separators, Fallback(separators));
    SplitsSound(text, c.separator);
    EmittedLossless(Splits(text, c.separator), 0, c.finer, size, force);
  }

  /** Separators that end with the empty one, which cuts between any two characters. */
  predicate EndsInCharacters(separators: seq<string>) {
    separators != [] && separators[|separators| - 1] == ""
  }

  lemma {:induction false} BestOfFull(text: string, separators: seq<string>, otherwise: string)
    requires EndsInCharacters(separators)
    ensures var c := Best(text, separators, otherwise);
            if c.separator == "" then c.finer == [] else EndsInCharacters(c.finer)
  {
    if separators[0] != "" && !Contains(text, separators[0]) {
      BestOfFull(text, separators[1..], otherwise);
    }
  }

  lemma {:induction false} EmittedBounded(splits: seq<string>, i: nat, finer: seq<string>, size: Size,
                                          force: string -> seq<string>, other: string -> seq<string>)
    requires i <= |splits| && (EndsInCharacters(finer) || Within(splits, size))
    ensures Within(Emitted(splits, i, finer, size, force), size)
    ensures Emitted(splits, i, finer, size, force) == Emitted(splits, i, finer, size, other)
    decreases 2 * |finer| + 1, 1, |splits| - i
  {
    if i < |splits| {
      if Count(splits[i]) > size {
        SegmentsBounded(splits[i], finer, size, force, other);
        EmittedBounded(splits, i + 1, finer, size, force, other);
      } else {
        var k := SmallEnd(splits, i, size);
        PackedSound(splits[i..k], size);
        EmittedBounded(splits, k, finer, size, force, other);
      }
    }
  }

  lemma CharsWithin(text: string, size: Size)
    ensures Within(Chars(text), size)
  {
    forall i | 0 <= i < |text|
      ensures Count(Chars(text)[i]) <= 1
    {
      assert Starts(Chars(text)[i], 0) == 0;
    }
  }

  /**
   With separators that end in the empty one, every segment has at most `size` words and the forced
   split is never consulted: replacing it by any other function changes nothing.
   */
  lemma {:induction false} SegmentsBounded(text: string, separators: seq<string>, size: Size,
                                           force: string -> seq<string>, other: string -> seq<string>)
    requires EndsInCharacters(separators)
    ensures Within(Segments(text, separators, size, force), size)
    ensures Segments(text, separators, size, force) == Segments(text, separators, size, other)
    decreases Max(2, 2 * |separators|), 0, 0
  {
    var c := Best(text, separators, Fallback(separators));
    BestIsFiner(text, separators, Fallback(separators));
    BestOfFull(text, separators, Fallback(separators));
    CharsWithin(text, size);
    EmittedBounded(Splits(text, c.separator), 0, c.finer, size, force, other);
  }

  // ---------------------------------------------------------------- spans

  datatype Span = Span(text: string, start: nat, end: nat)

  datatype SpanResult = Spans(spans: seq<Span>) | ValueError

  method SplitText(text: string, separators: seq<string>, size: Size) returns (segments: seq<string>)
    ensures segments == if Blank(text) then [] else Segments(text, separators, size, ForceOf(size))
  {
    CountZeroIffBlank(text);
    if text == "" || Count(text) == 0 {
      return [];
    }
    segments := SplitTextRecursive(text, separators, size);
  }

  /** Span i starts where the one before it ends. */
  predicate Meets(spans: seq<Span>, i: nat)
    requires 0 < i < |spans|
  {
    spans[i - 1].end == spans[i].start
  }

  /** Spans that cut the whole text into consecutive non-empty slices. */
  ghost predicate Covers(spans: seq<Span>, text: string)
  {
    && (forall i :: 0 <= i < |spans| ==>
          spans[i].start < spans[i].end <= |text| && spans[i].text == text[spans[i].start..spans[i].end])
    && (forall i :: 0 < i < |spans| ==> Meets(spans, i))
    && (if spans == [] then text == "" else spans[0].start == 0 && spans[|spans| - 1].end == |text|)
  }

  /** Each span carries its segment and stands where that segment falls in the concatenation. */
  ghost predicate Placed(spans: seq<Span>, segments: seq<string>, k: nat)
    requires k <= |segments|
  {
    && |spans| == k
    && forall i :: 0 <= i < k ==>
         var start := |JoinRange(segments, 0, i)|; spans[i] == Span(segments[i], start, start + |segments[i]|)
  }

  lemma SliceOfPrefix(text: string, a: string, b: string, rest: string)
    requires text == a + b + rest
    ensures |a| + |b| <= |text| && text[|a|..|a| + |b|] == b
  {
  }

  lemma SegmentSlice(text: string, segments: seq<string>, k: nat)
    requires k < |segments| && Join(segments) == text
    ensures var o := |JoinRange(segments, 0, k)|; var e := o + |segments[k]|;
            e == |JoinRange(segments, 0, k + 1)| && e <= |text| && text[o..e] == segments[k]
  {
    RangeSplit(segments, 0, k, k + 1);
    RangeSplit(segments, 0, k + 1, |segments|);
    RangeOne(segments, k);
    SliceOfPrefix(text, JoinRange(segments, 0, k), segments[k], JoinRange(segments, k + 1, |segments|));
  }

  /** One more segment is found where the offset stands, and its span is in place. */
  lemma PlacedMore(spans: seq<Span>, segments: seq<string>, k: nat, text: string)
    requires k < |segments| && Placed(spans, segments, k) && Join(segments) == text
    ensures var o := |JoinRange(segments, 0, k)|; var e := o + |segments[k]|;
            && e == |JoinRange(segments, 0, k + 1)| && e <= |text| && text[o..e] == segments[k]
            && Placed(spans + [Span(text[o..e], o, e)], segments, k + 1)
  {
    SegmentSlice(text, segments, k);
  }

  lemma PlacedCovers(spans: seq<Span>, segments: seq<string>, text: string)
    requires Placed(spans, segments, |segments|) && Join(segments) == text && NoneEmpty(segments)
    ensures Covers(spans, text)
  {
    forall i | 0 <= i < |spans|
      ensures spans[i].start < spans[i].end <= |text| && spans[i].text == text[spans[i].start..spans[i].end]
      ensures 0 < i ==> Meets(spans, i)
    {
      SegmentSlice(text, segments, i);
      if 0 < i { SegmentSlice(text, segments, i - 1); }
    }
    assert JoinRange(segments, 0, 0) == "";
    if segments != [] {
      SegmentSlice(text, segments, |segments| - 1);
    }
  }

  lemma ForceIsLossless(size: Size)
    ensures Lossless(ForceOf(size))
  {
    forall s: string
      ensures Join(ForceOf(size)(s)) == s && NoneEmpty(ForceOf(size)(s))
    {
      TargetPositive(s, size);
      ForcedLossless(s, 0, TargetChars(s, size));
      Units(s);
    }
  }

  /** The segments of any text with a word in it: lossless, non-empty, and bounded if characters are the last resort. */
  lemma {:induction false} SegmentsSound(text: string, separators: seq<string>, size: Size)
    ensures Join(Segments(text, separators, size, ForceOf(size))) == text
    ensures NoneEmpty(Segments(text, separators, size, ForceOf(size)))
    ensures EndsInCharacters(separators) ==> Within(Segments(text, separators, size, ForceOf(size)), size)
  {
    ForceIsLossless(size);
    SegmentsLossless(text, separators, size, ForceOf(size));
    if EndsInCharacters(separators) {
      SegmentsBounded(text, separators, size, ForceOf(size), ForceOf(size));
    }
  }

  /** Fails exactly on a non-empty text of white space; otherwise the spans are the segments, in place. */
  method SplitTextWithSpans(text: string, separators: seq<string>, size: Size) returns (r: SpanResult)
    ensures r.ValueError? <==> Blank(text) && text != ""
    ensures r.Spans? ==> Covers(r.spans, text)
    ensures r.Spans? && text != "" ==>
              var segments := Segments(text, separators, size, ForceOf(size));
              Placed(r.spans, segments, |segments|)
  {
    var segments := SplitText(text, separators, size);
    SegmentsSound(text, separators, size);
    var spans: seq<Span> := [];
    var offset := 0;
    for k := 0 to |segments|
      invariant Placed(spans, segments, k)
      invariant offset == |JoinRange(segments, 0, k)|
    {
      PlacedMore(spans, segments, k, text);
      var end := offset + |segments[k]|;
      if end > |text| || text[offset..end] != segments[k] {
        return ValueError;
      }
      spans := spans + [Span(text[offset..end], offset, end)];
      offset := end;
    }
    Units(segments);
    if offset != |text| {
      return ValueError;
    }
    assert !Blank(text) || text == "";
    PlacedCovers(spans, segments, text);
    return Spans(spans);
  }
}
