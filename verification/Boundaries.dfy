/** Where the splitter cuts with its own separators: at white space, so that no word is cut. */
module Boundaries {
  import opened Seqs
  import opened Words
  import opened Splitter

  /** No white space but blanks and line feeds. */
  predicate PlainSpaces(text: string) {
    forall i :: 0 <= i < |text| && IsSpace(text[i]) ==> text[i] == ' ' || text[i] == '\n'
  }

  predicate EndsInSpace(s: string) {
    s != "" && IsSpace(s[|s| - 1])
  }

  /** Every segment but the last ends in white space. */
  predicate CutAtSpaces(segments: seq<string>) {
    forall k :: 0 <= k < |segments| - 1 ==> EndsInSpace(segments[k])
  }

  /** The character stands nowhere but at the end. */
  predicate OnlyLast(text: string, c: char) {
    forall i :: 0 <= i < |text| - 1 ==> text[i] != c
  }

  /** What is left for the separators from j on: after the line feed, and after the blank, those stand at ends only. */
  predicate Left(text: string, j: nat) {
    && PlainSpaces(text)
    && (j >= 2 ==> OnlyLast(text, '\n'))
    && (j >= 8 ==> OnlyLast(text, ' '))
  }

  function Finer(j: nat): seq<string>
    requires j <= 9
  {
    DEFAULT_SEPARATORS[j..]
  }

  ghost predicate Cuttable(text: string, j: nat) {
    exists i :: j <= i < 8 && Usable(text, DEFAULT_SEPARATORS[i])
  }

  // ---------------------------------------------------------------- lists of segments

  lemma CutConcat(a: seq<string>, b: seq<string>)
    requires CutAtSpaces(a) && CutAtSpaces(b) && (a != [] && b != [] ==> EndsInSpace(a[|a| - 1]))
    ensures CutAtSpaces(a + b)
  {
  }

  /** Non-empty segments end as their concatenation does. */
  lemma LastOfJoin(segments: seq<string>)
    requires NoneEmpty(segments) && segments != []
    ensures EndsInSpace(Join(segments)) <==> EndsInSpace(segments[|segments| - 1])
  {
    var n := |segments|;
    JoinSnoc(segments[..n - 1], segments[n - 1]);
    assert segments[..n - 1] + [segments[n - 1]] == segments;
  }

  lemma {:induction false} PackedFromCut(splits: seq<string>, i: nat, chunk: string, used: nat, size: Size)
    requires i <= |splits| && NoneEmpty(splits) && (i < |splits| ==> EndsInSpace(chunk))
    requires forall k :: i <= k < |splits| - 1 ==> EndsInSpace(splits[k])
    ensures CutAtSpaces(PackedFrom(splits, i, chunk, used, size))
    decreases |splits| - i
  {
    if i < |splits| {
      var words := Count(splits[i]);
      if used + words > size {
        PackedFromCut(splits, i + 1, splits[i], words, size);
        CutConcat([chunk], PackedFrom(splits, i + 1, splits[i], words, size));
      } else {
        PackedFromCut(splits, i + 1, chunk + splits[i], used + words, size);
      }
    }
  }

  /** Packing a run of splits, all but its last ending in white space. */
  lemma PackedCut(splits: seq<string>, size: Size)
    requires NoneEmpty(splits) && CutAtSpaces(splits)
    ensures CutAtSpaces(Packed(splits, size))
    ensures splits != [] && EndsInSpace(splits[|splits| - 1]) ==>
              Packed(splits, size) != [] ==> EndsInSpace(Packed(splits, size)[|Packed(splits, size)| - 1])
  {
    if splits != [] {
      PackedFromCut(splits, 1, splits[0], Count(splits[0]), size);
      PackedSound(splits, size);
      LastOfJoin(splits);
      if Packed(splits, size) != [] { LastOfJoin(Packed(splits, size)); }
    }
  }

  // ---------------------------------------------------------------- pieces

  /** Each separator but the last, the empty one, ends in a blank or a line feed. */
  lemma SeparatorEnds(i: nat)
    requires i < 8
    ensures var sep := DEFAULT_SEPARATORS[i]; sep != "" && EndsInSpace(sep)
    ensures i == 1 ==> DEFAULT_SEPARATORS[i] == "\n"
    ensures i == 7 ==> DEFAULT_SEPARATORS[i] == " "
  {
  }

  lemma OneCharacter(text: string, c: char, i: nat)
    requires i < |text|
    ensures OccursAt(text, [c], i) <==> text[i] == c
  {
    assert text[i..i + 1] == [text[i]];
  }

  /** A single-character separator stands at the end of a piece only. */
  lemma {:induction false} PieceOnlyLast(text: string, c: char)
    ensures Index(text, [c]) < 0 ==> OnlyLast(text, c)
    ensures Index(text, [c]) >= 0 ==> OnlyLast(text[..Index(text, [c]) + 1], c)
  {
    forall i | 0 <= i < |text|
      ensures OccursAt(text, [c], i) <==> text[i] == c
    {
      OneCharacter(text, c, i);
    }
  }

  /** The piece up to and with the first separator i. */
  lemma FirstPieceLeft(text: string, i: nat)
    requires i < 8 && PlainSpaces(text) && (i >= 2 ==> OnlyLast(text, '\n'))
    requires Index(text, DEFAULT_SEPARATORS[i]) >= 0
    ensures var e := Index(text, DEFAULT_SEPARATORS[i]) + |DEFAULT_SEPARATORS[i]|;
            e <= |text| && Left(text[..e], i + 1) && EndsInSpace(text[..e])
  {
    var sep := DEFAULT_SEPARATORS[i];
    var q := Index(text, sep);
    SeparatorEnds(i);
    var first := text[..q + |sep|];
    assert first[|first| - 1] == text[q..q + |sep|][|sep| - 1];
    if i == 1 { PieceOnlyLast(text, '\n'); }
    if i == 7 { PieceOnlyLast(text, ' '); }
  }

  lemma WholeLeft(text: string, i: nat)
    requires i < 8 && PlainSpaces(text) && (i >= 2 ==> OnlyLast(text, '\n'))
    requires Index(text, DEFAULT_SEPARATORS[i]) < 0
    ensures Left(text, i + 1)
  {
    SeparatorEnds(i);
    if i == 1 { PieceOnlyLast(text, '\n'); }
    if i == 7 { PieceOnlyLast(text, ' '); }
  }

  ghost predicate AllLeft(splits: seq<string>, j: nat) {
    forall k :: 0 <= k < |splits| ==> Left(splits[k], j)
  }

  /** The pieces at separator i hold nothing but finer separators, and all but the last end in white space. */
  lemma {:induction false} PiecesLeft(text: string, i: nat)
    requires i < 8 && PlainSpaces(text) && (i >= 2 ==> OnlyLast(text, '\n'))
    ensures DEFAULT_SEPARATORS[i] != ""
    ensures var pieces := Pieces(text, DEFAULT_SEPARATORS[i]); AllLeft(pieces, i + 1) && CutAtSpaces(pieces)
    decreases |text|
  {
    SeparatorEnds(i);
    var sep := DEFAULT_SEPARATORS[i];
    var q := Index(text, sep);
    if q >= 0 {
      FirstPieceLeft(text, i);
      RestPlain(text, q + |sep|);
      PiecesLeft(text[q + |sep|..], i);
      MorePiecesLeft(text[..q + |sep|], Pieces(text[q + |sep|..], sep), i + 1);
    } else {
      WholeLeft(text, i);
    }
  }

  lemma RestPlain(text: string, e: nat)
    requires e <= |text| && PlainSpaces(text)
    ensures PlainSpaces(text[e..]) && (OnlyLast(text, '\n') ==> OnlyLast(text[e..], '\n'))
  {
    assert forall x :: 0 <= x < |text[e..]| ==> text[e..][x] == text[e + x];
  }

  lemma MorePiecesLeft(first: string, pieces: seq<string>, j: nat)
    requires Left(first, j) && EndsInSpace(first) && AllLeft(pieces, j) && CutAtSpaces(pieces)
    ensures AllLeft([first] + pieces, j) && CutAtSpaces([first] + pieces)
  {
    CutConcat([first], pieces);
  }

  // ---------------------------------------------------------------- the recursion

  lemma {:induction false} OneStart(text: string, k: nat)
    requires k <= |text| && forall i :: 0 < i < k ==> !WordStart(text, i)
    ensures Starts(text, k) <= 1
    ensures k == 0 ==> Starts(text, k) == 0
  {
    if k > 0 { OneStart(text, k - 1); }
    if k == 1 { assert Starts(text, 0) == 0; }
  }

  /** A text of two words has white space before its last character, and so a separator to cut at. */
  lemma TwoWordsCuttable(text: string, j: nat)
    requires Left(text, j) && j <= 8 && Count(text) >= 2
    ensures Cuttable(text, j)
  {
    if forall i :: 0 < i < |text| ==> !WordStart(text, i) {
      OneStart(text, |text|);
    } else {
      var i :| 0 < i < |text| && WordStart(text, i);
      SpaceCuttable(text, j, i - 1);
    }
  }

  lemma SpaceCuttable(text: string, j: nat, x: nat)
    requires Left(text, j) && j <= 8 && x < |text| && IsSpace(text[x]) && (x < |text| - 1 || j == 0)
    ensures Cuttable(text, j)
  {
    OneCharacter(text, text[x], x);
    if text[x] == ' ' {
      assert Usable(text, DEFAULT_SEPARATORS[7]);
    } else {
      assert Usable(text, DEFAULT_SEPARATORS[1]);
    }
  }

  /** With a separator to cut at, the text is cut there. */
  lemma {:induction false} SegmentsCut(text: string, j: nat, size: Size, force: string -> seq<string>)
    requires j <= 8 && Left(text, j) && Cuttable(text, j) && Lossless(force)
    ensures CutAtSpaces(Segments(text, Finer(j), size, force))
    decreases 9 - j, 0, 0
  {
    var i := TakenSeparator(text, j);
    PiecesLeft(text, i);
    SplitsSound(text, DEFAULT_SEPARATORS[i]);
    EmittedCut(Pieces(text, DEFAULT_SEPARATORS[i]), 0, i + 1, size, force);
  }

  /** Which separator is taken, and that none before it occurs. */
  lemma TakenSeparator(text: string, j: nat) returns (i: nat)
    requires j <= 8 && Left(text, j) && Cuttable(text, j)
    ensures j <= i < 8 && Best(text, Finer(j), Fallback(Finer(j))) == Choice(DEFAULT_SEPARATORS[i], Finer(i + 1))
    ensures i >= 2 ==> OnlyLast(text, '\n')
  {
    var u :| j <= u < 8 && Usable(text, DEFAULT_SEPARATORS[u]);
    i := FirstUsable(text, DEFAULT_SEPARATORS, j, u, Fallback(Finer(j)));
    SeparatorEnds(i);
    if j < 2 <= i { NoLineFeed(text, j, i); }
  }

  lemma NoLineFeed(text: string, j: nat, i: nat)
    requires j < 2 <= i <= 8 && forall k :: j <= k < i ==> !Usable(text, DEFAULT_SEPARATORS[k])
    ensures OnlyLast(text, '\n')
  {
    SeparatorEnds(1);
    UsableIffContained(text, DEFAULT_SEPARATORS[1]);
    PieceOnlyLast(text, '\n');
  }

  /** From j on, the first separator that can be taken is at u or before it. */
  lemma {:induction false} FirstUsable(text: string, separators: seq<string>, j: nat, u: nat, otherwise: string)
    returns (i: nat)
    requires j <= u < |separators| && Usable(text, separators[u])
    ensures j <= i <= u && forall k :: j <= k < i ==> !Usable(text, separators[k])
    ensures separators[i] != "" ==>
              Best(text, separators[j..], otherwise) == Choice(separators[i], separators[i + 1..])
    decreases u - j
  {
    DropHead(separators, j);
    UsableIffContained(text, separators[j]);
    if Usable(text, separators[j]) {
      i := j;
    } else {
      i := FirstUsable(text, separators, j + 1, u, otherwise);
    }
  }

  lemma {:induction false} EmittedCut(splits: seq<string>, x: nat, j: nat, size: Size, force: string -> seq<string>)
    requires 1 <= j <= 8 && x <= |splits| && AllLeft(splits, j) && CutAtSpaces(splits) && NoneEmpty(splits)
    requires Lossless(force)
    ensures CutAtSpaces(Emitted(splits, x, Finer(j), size, force))
    decreases 9 - j, 1, |splits| - x
  {
    if x < |splits| {
      if Count(splits[x]) > size {
        TwoWordsCuttable(splits[x], j);
        SegmentsCut(splits[x], j, size, force);
        EmittedCut(splits, x + 1, j, size, force);
        RefinedEnds(splits, x, j, size, force);
      } else {
        var k := SmallEnd(splits, x, size);
        EmittedCut(splits, k, j, size, force);
        RunEnds(splits, x, k, j, size, force);
      }
    }
  }

  lemma RefinedEnds(splits: seq<string>, x: nat, j: nat, size: Size, force: string -> seq<string>)
    requires 1 <= j <= 8 && x < |splits| && CutAtSpaces(splits) && NoneEmpty(splits) && Lossless(force)
    requires Count(splits[x]) > size && CutAtSpaces(Segments(splits[x], Finer(j), size, force))
    requires CutAtSpaces(Emitted(splits, x + 1, Finer(j), size, force))
    ensures CutAtSpaces(Emitted(splits, x, Finer(j), size, force))
  {
    var segments, rest := Segments(splits[x], Finer(j), size, force), Emitted(splits, x + 1, Finer(j), size, force);
    SegmentsLossless(splits[x], Finer(j), size, force);
    if segments != [] { LastOfJoin(segments); }
    CutConcat(segments, rest);
  }

  lemma {:induction false} RunEnds(splits: seq<string>, x: nat, k: nat, j: nat, size: Size,
                                   force: string -> seq<string>)
    requires 1 <= j <= 8 && x < |splits| && CutAtSpaces(splits) && NoneEmpty(splits)
    requires Count(splits[x]) <= size && k == SmallEnd(splits, x, size)
    requires CutAtSpaces(Emitted(splits, k, Finer(j), size, force))
    ensures CutAtSpaces(Emitted(splits, x, Finer(j), size, force))
  {
    var run := splits[x..k];
    assert forall y :: 0 <= y < |run| ==> run[y] == splits[x + y];
    PackedCut(run, size);
    CutConcat(Packed(run, size), Emitted(splits, k, Finer(j), size, force));
  }

  // ---------------------------------------------------------------- a text without white space

  lemma {:induction false} CharsRange(text: string, i: nat, k: nat)
    requires i <= k <= |text| && forall x :: 0 <= x < |text| ==> !IsSpace(text[x])
    ensures JoinRange(Chars(text), i, k) == text[i..k] && CountRange(Chars(text), i, k) == k - i
    decreases k - i
  {
    if i < k {
      CharsRange(text, i + 1, k);
      assert text[i..k] == [text[i]] + text[i + 1..k];
      OneWord(text[i]);
    }
  }

  lemma OneWord(c: char)
    requires !IsSpace(c)
    ensures Count([c]) == 1
  {
    assert Starts([c], 0) == 0 && WordStart([c], 0);
  }

  /** One word alone is cut after so many characters as the size says, if it is longer. */
  lemma {:induction false} WordCut(text: string, size: Size)
    requires forall x :: 0 <= x < |text| ==> !IsSpace(text[x])
    ensures CutAtSpaces(Packed(Chars(text), size)) <==> |text| <= size
  {
    if text != "" {
      var chars := Chars(text);
      PackedIsGreedy(chars, 0, size);
      var k := FitEnd(chars, 1, Count(chars[0]), size);
      CharsRange(text, 0, 1);
      CharsRange(text, 0, k);
      if k < |text| {
        CharsRange(text, k, k + 1);
        PackedIsGreedy(chars, k, size);
        assert Packed(chars, size)[0] == text[0..k];
      }
    }
  }

  lemma NoneOccurs(text: string, i: nat)
    requires i < 8 && forall x :: 0 <= x < |text| ==> !IsSpace(text[x])
    ensures !Usable(text, DEFAULT_SEPARATORS[i])
  {
    SeparatorEnds(i);
    var sep := DEFAULT_SEPARATORS[i];
    forall p: nat | p + |sep| <= |text|
      ensures !OccursAt(text, sep, p)
    {
      assert text[p..p + |sep|][|sep| - 1] == text[p + |sep| - 1];
    }
  }

  lemma {:induction false} WordSegments(text: string, size: Size)
    requires forall x :: 0 <= x < |text| ==> !IsSpace(text[x])
    ensures Segments(text, DEFAULT_SEPARATORS, size, ForceOf(size)) == Packed(Chars(text), size)
  {
    var seps, chars := DEFAULT_SEPARATORS, Chars(text);
    forall i | 0 <= i < 8
      ensures !Usable(text, seps[i])
    {
      NoneOccurs(text, i);
    }
    var first := BestByIndex(text, seps, 0, Fallback(seps));
    Units(seps);
    CharsWithin(text, size);
    Units(chars);
    Units(Packed(chars, size));
  }

  /**
   In a text whose only white space is blanks and line feeds, every segment but the last ends in white space, and so no
   word is cut, exactly when the text has white space at all or is no longer than the segment size.
   */
  lemma {:induction false} SegmentsKeepWords(text: string, size: Size)
    requires PlainSpaces(text)
    ensures CutAtSpaces(Segments(text, DEFAULT_SEPARATORS, size, ForceOf(size)))
       <==> (exists i :: 0 <= i < |text| && IsSpace(text[i])) || |text| <= size
  {
    if i :| 0 <= i < |text| && IsSpace(text[i]) {
      ForceIsLossless(size);
      SpaceCuttable(text, 0, i);
      SegmentsCut(text, 0, size, ForceOf(size));
      Units(DEFAULT_SEPARATORS);
    } else {
      WordSegments(text, size);
      WordCut(text, size);
    }
  }
}
