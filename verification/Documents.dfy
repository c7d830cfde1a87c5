/** Documents that the splitter cuts into segments of given sizes, and what they say about the optimiser's bounds. */
module Documents {
  import opened Seqs
  import opened Words
  import opened Grouping
  import opened Feasibility
  import Splitter

  const BLANK_LINE := "\n\n"

  // ---------------------------------------------------------------- paragraphs

  /** A paragraph of k one-letter words, ended by an empty line. */
  function Paragraph(k: nat): (p: string)
    ensures |p| == 2 * k + 2
  {
    seq(2 * k + 2, i requires 0 <= i < 2 * k + 2 => if i >= 2 * k then '\n' else if i % 2 == 0 then 'w' else ' ')
  }

  lemma {:induction false} ParagraphStarts(k: nat, j: nat)
    requires j <= 2 * k + 2
    ensures Starts(Paragraph(k), j) == if j <= 2 * k then (j + 1) / 2 else k
  {
    if j > 0 { ParagraphStarts(k, j - 1); }
  }

  lemma ParagraphCount(k: nat)
    ensures Count(Paragraph(k)) == k
  {
    ParagraphStarts(k, 2 * k + 2);
  }

  /** The paragraphs of the sizes from i on, one after the other. */
  function Text(lens: seq<nat>, i: nat): string
    requires i <= |lens|
    decreases |lens| - i
  {
    if i == |lens| then [] else Paragraph(lens[i]) + Text(lens, i + 1)
  }

  function Paragraphs(lens: seq<nat>): (pieces: seq<string>) {
    seq(|lens|, i requires 0 <= i < |lens| => Paragraph(lens[i]))
  }

  // ---------------------------------------------------------------- how they are cut

  lemma BlankLineAt(k: nat, rest: string, i: nat)
    requires i <= 2 * k
    ensures Splitter.OccursAt(Paragraph(k) + rest, BLANK_LINE, i) <==> i == 2 * k
  {
    var text := Paragraph(k) + rest;
    assert text[i..i + 2] == [text[i], text[i + 1]];
    assert text[i] == Paragraph(k)[i] && text[i + 1] == Paragraph(k)[i + 1];
  }

  /** The first empty line of a text ends its first paragraph. */
  lemma FirstBlankLine(k: nat, rest: string)
    ensures Splitter.Index(Paragraph(k) + rest, BLANK_LINE) == 2 * k
  {
    var text := Paragraph(k) + rest;
    forall i | 0 <= i <= 2 * k
      ensures Splitter.OccursAt(text, BLANK_LINE, i) <==> i == 2 * k
    {
      BlankLineAt(k, rest, i);
    }
    var r := Splitter.Index(text, BLANK_LINE);
    assert Splitter.OccursAt(text, BLANK_LINE, 2 * k);
    assert 0 <= r <= 2 * k && Splitter.OccursAt(text, BLANK_LINE, r);
  }

  lemma {:induction false} PiecesOfText(lens: seq<nat>, i: nat)
    requires i <= |lens|
    ensures Splitter.Pieces(Text(lens, i), BLANK_LINE) == Paragraphs(lens)[i..]
    decreases |lens| - i
  {
    var text := Text(lens, i);
    if i == |lens| {
      assert !Splitter.OccursAt(text, BLANK_LINE, 0);
    } else {
      var first, rest := Paragraph(lens[i]), Text(lens, i + 1);
      FirstBlankLine(lens[i], rest);
      assert text[..|first|] == first && text[|first|..] == rest;
      PiecesOfText(lens, i + 1);
      DropHead(Paragraphs(lens), i);
    }
  }

  /** Pieces that do not fit together are packed one by one. */
  lemma {:induction false} PackedApart(lens: seq<nat>, i: nat, size: Splitter.Size)
    requires Unmergeable(lens, size) && 0 < i <= |lens|
    ensures Splitter.PackedFrom(Paragraphs(lens), i, Paragraph(lens[i - 1]), lens[i - 1], size)
         == Paragraphs(lens)[i - 1..]
    decreases |lens| - i
  {
    var pieces := Paragraphs(lens);
    DropHead(pieces, i - 1);
    if i == |lens| {
      assert pieces[i..] == [];
    } else {
      ParagraphCount(lens[i]);
      assert TooLargeWith(lens, i, size);
      PackedApart(lens, i + 1, size);
    }
  }

  lemma {:induction false} AllSmall(lens: seq<nat>, size: Splitter.Size)
    requires Unmergeable(lens, size)
    ensures Splitter.SmallEnd(Paragraphs(lens), 0, size) == |lens|
    ensures forall i :: 0 <= i < |lens| ==> Count(Paragraphs(lens)[i]) == lens[i]
  {
    forall i | 0 <= i < |lens|
      ensures Count(Paragraphs(lens)[i]) == lens[i]
    {
      ParagraphCount(lens[i]);
    }
  }

  ghost function SegmentsOf(text: string, size: Splitter.Size): seq<string> {
    Splitter.Segments(text, Splitter.DEFAULT_SEPARATORS, size, Splitter.ForceOf(size))
  }

  /** The token counts of a document's segments. */
  ghost function Sizes(text: string, size: Splitter.Size): (lens: seq<nat>) {
    var segments := SegmentsOf(text, size);
    seq(|segments|, i requires 0 <= i < |segments| => Count(segments[i]))
  }

  lemma {:induction false} BestIsBlankLine(text: string)
    requires Splitter.Contains(text, BLANK_LINE)
    ensures var s := Splitter.DEFAULT_SEPARATORS; Splitter.Best(text, s, Splitter.Fallback(s)).separator == BLANK_LINE
  {
  }

  /** The splitter cuts such a text into exactly its paragraphs. */
  lemma {:induction false} SegmentsAreParagraphs(lens: seq<nat>, size: Splitter.Size)
    requires Unmergeable(lens, size) && lens != []
    ensures SegmentsOf(Text(lens, 0), size) == Paragraphs(lens)
    ensures Sizes(Text(lens, 0), size) == lens
  {
    var text, pieces, seps := Text(lens, 0), Paragraphs(lens), Splitter.DEFAULT_SEPARATORS;
    FirstBlankLine(lens[0], Text(lens, 1));
    BestIsBlankLine(text);
    PiecesOfText(lens, 0);
    Units(pieces);
    AllSmall(lens, size);
    PackedApart(lens, 1, size);
    EmittedOnce(pieces, Splitter.Best(text, seps, Splitter.Fallback(seps)).finer, size);
  }

  /** Splits that are all small are packed in one go. */
  lemma {:induction false} EmittedOnce(splits: seq<string>, finer: seq<string>, size: Splitter.Size)
    requires splits != [] && Splitter.SmallEnd(splits, 0, size) == |splits|
    ensures Splitter.Emitted(splits, 0, finer, size, Splitter.ForceOf(size)) == Splitter.Packed(splits, size)
  {
    Units(splits);
    Units(Splitter.Packed(splits, size));
    assert Splitter.Emitted(splits, |splits|, finer, size, Splitter.ForceOf(size)) == [];
  }

  // ---------------------------------------------------------------- every document

  /**
   The optimiser finds an admissible partition of every document of two or more segments, cut at segment size s,
   exactly when the configuration has room for one segment on top of an almost-full minimum.
   */
  lemma NeverFallsBackIffRoom(lim: Limits, s: Splitter.Size)
    ensures (forall text :: |Sizes(text, s)| >= 2 ==> Feasible(Sizes(text, s), lim)) <==> RoomForOneMore(lim, s)
  {
    if RoomForOneMore(lim, s) {
      forall text | |Sizes(text, s)| >= 2
        ensures Feasible(Sizes(text, s), lim)
      {
        Splitter.SegmentsSound(text, Splitter.DEFAULT_SEPARATORS, s);
        FeasibleWithRoom(Sizes(text, s), lim, s);
      }
    } else {
      var lens := InfeasibleWithoutRoom(lim, s);
      SegmentsAreParagraphs(lens, s);
      assert !Feasible(Sizes(Text(lens, 0), s), lim);
    }
  }
}
