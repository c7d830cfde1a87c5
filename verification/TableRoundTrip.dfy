/** A table written out as tags is read back: every row and cell in its place, with its text, mark and spans. */
module TableRoundTrip {
  import opened Options
  import opened Seqs
  import opened StructuredTables

  // ---------------------------------------------------------------- tables as written

  /** A cell from its start tag to its end tag, with the text in between. */
  datatype CellMarkup = CellMarkup(header: bool, at: nat, rowSpan: int, columnSpan: int, text: seq<string>, end: nat)

  datatype RowMarkup = RowMarkup(at: nat, cells: seq<CellMarkup>, end: nat)

  datatype TableMarkup = TableMarkup(at: nat, captionAt: nat, caption: seq<string>, captionEnd: nat,
    rows: seq<RowMarkup>, end: nat)

  function Opened(tag: Tag, at: nat): Event {
    StartTag(tag, at, false, false, 1, 1)
  }

  function Texts(text: seq<string>): (events: seq<Event>) {
    seq(|text|, i requires 0 <= i < |text| => Data(text[i]))
  }

  function CellTagOf(c: CellMarkup): Tag {
    if c.header then ThTag else TdTag
  }

  function CellEvents(c: CellMarkup): seq<Event> {
    var tag := CellTagOf(c);
    [StartTag(tag, c.at, false, false, c.rowSpan, c.columnSpan)] + Texts(c.text) + [EndTag(tag, c.end)]
  }

  function CellsEvents(cells: seq<CellMarkup>, k: nat): seq<Event>
    requires k <= |cells|
  {
    if k == 0 then [] else CellsEvents(cells, k - 1) + CellEvents(cells[k - 1])
  }

  function RowEvents(r: RowMarkup): seq<Event> {
    [Opened(TrTag, r.at)] + CellsEvents(r.cells, |r.cells|) + [EndTag(TrTag, r.end)]
  }

  function RowsEvents(rows: seq<RowMarkup>, k: nat): seq<Event>
    requires k <= |rows|
  {
    if k == 0 then [] else RowsEvents(rows, k - 1) + RowEvents(rows[k - 1])
  }

  function CaptionEvents(t: TableMarkup): seq<Event> {
    [Opened(CaptionTag, t.captionAt)] + Texts(t.caption) + [EndTag(CaptionTag, t.captionEnd)]
  }

  function TableEvents(t: TableMarkup): seq<Event> {
    [Opened(TableTag, t.at)] + CaptionEvents(t) + RowsEvents(t.rows, |t.rows|) + [EndTag(TableTag, t.end)]
  }

  /** End tags come after start tags. */
  predicate InPlace(t: TableMarkup) {
    t.at < t.end && RowsInPlace(t.rows)
  }

  predicate RowsInPlace(rows: seq<RowMarkup>) {
    forall i :: 0 <= i < |rows| ==> CellsInPlace(rows[i].cells)
  }

  predicate CellsInPlace(cells: seq<CellMarkup>) {
    forall j :: 0 <= j < |cells| ==> cells[j].at < cells[j].end
  }

  // ---------------------------------------------------------------- tables as read

  function Span(n: int): nat {
    if n < 1 then 1 else if n > 100 then 100 else n
  }

  function ReadCell(c: CellMarkup, source: Source): Cell {
    Cell(source.bounded(c.text).0, c.header, Span(c.rowSpan), Span(c.columnSpan), Reference(c.at, c.end))
  }

  function ReadCells(cells: seq<CellMarkup>, source: Source, k: nat): (row: Row)
    requires k <= |cells|
    ensures |row| == k
  {
    seq(k, i requires 0 <= i < k => ReadCell(cells[i], source))
  }

  /** The rows with a cell in them. */
  function ReadRows(rows: seq<RowMarkup>, source: Source, k: nat): seq<Row>
    requires k <= |rows|
  {
    if k == 0 then []
    else
      var cells := rows[k - 1].cells;
      ReadRows(rows, source, k - 1) + if cells == [] then [] else [ReadCells(cells, source, |cells|)]
  }

  function ReadTable(t: TableMarkup, source: Source): Table {
    Table(source.bounded(t.caption).0, ReadRows(t.rows, source, |t.rows|), Reference(t.at, t.end))
  }

  /** Whether some text was cut to its bound. */
  predicate CellsCut(cells: seq<CellMarkup>, source: Source, k: nat)
    requires k <= |cells|
  {
    k > 0 && (CellsCut(cells, source, k - 1) || source.bounded(cells[k - 1].text).1)
  }

  predicate RowsCut(rows: seq<RowMarkup>, source: Source, k: nat)
    requires k <= |rows|
  {
    k > 0 && (RowsCut(rows, source, k - 1) || CellsCut(rows[k - 1].cells, source, |rows[k - 1].cells|))
  }

  function CellCount(rows: seq<RowMarkup>, k: nat): nat
    requires k <= |rows|
  {
    if k == 0 then 0 else CellCount(rows, k - 1) + |rows[k - 1].cells|
  }

  // ---------------------------------------------------------------- reading events one after the other

  predicate StepsAt(trace: seq<Parser>, events: seq<Event>, source: Source, i: nat)
    requires |trace| == |events| + 1 && i < |events|
  {
    trace[i + 1] == Step(trace[i], events[i], source)
  }

  ghost predicate Traces(trace: seq<Parser>, p: Parser, events: seq<Event>, source: Source, q: Parser) {
    && |trace| == |events| + 1 && trace[0] == p && trace[|events|] == q
    && forall i :: 0 <= i < |events| ==> StepsAt(trace, events, source, i)
  }

  /** The events take the parser from p to q. */
  ghost predicate Reads(p: Parser, events: seq<Event>, source: Source, q: Parser) {
    exists trace :: Traces(trace, p, events, source, q)
  }

  lemma ReadsNone(p: Parser, source: Source)
    ensures Reads(p, [], source, p)
  {
    assert Traces([p], p, [], source, p);
  }

  lemma ReadsOne(p: Parser, e: Event, source: Source, q: Parser)
    requires q == Step(p, e, source)
    ensures Reads(p, [e], source, q)
  {
    assert StepsAt([p, q], [e], source, 0);
    assert Traces([p, q], p, [e], source, q);
  }

  lemma ReadsBoth(p: Parser, a: seq<Event>, q: Parser, b: seq<Event>, r: Parser, source: Source)
    requires Reads(p, a, source, q) && Reads(q, b, source, r)
    ensures Reads(p, a + b, source, r)
  {
    var s :| Traces(s, p, a, source, q);
    var t :| Traces(t, q, b, source, r);
    var trace := s + t[1..];
    forall i | 0 <= i < |a + b|
      ensures StepsAt(trace, a + b, source, i)
    {
      if i < |a| {
        assert StepsAt(s, a, source, i);
      } else {
        assert StepsAt(t, b, source, i - |a|);
        assert trace[i] == t[i - |a|] && trace[i + 1] == t[i - |a| + 1];
      }
    }
    assert Traces(trace, p, a + b, source, r);
  }

  /** One event, some more, and a last one. */
  lemma ReadsAround(p: Parser, first: Event, q: Parser, middle: seq<Event>, r: Parser, last: Event, s: Parser,
                    source: Source)
    requires q == Step(p, first, source) && Reads(q, middle, source, r) && s == Step(r, last, source)
    ensures Reads(p, [first] + middle + [last], source, s)
  {
    ReadsOne(p, first, source, q);
    ReadsBoth(p, [first], q, middle, r, source);
    ReadsOne(r, last, source, s);
    ReadsBoth(p, [first] + middle, r, [last], s, source);
  }

  /** That is what feeding the events does. */
  lemma {:induction false} ReadsIsFeed(p: Parser, events: seq<Event>, source: Source, q: Parser, trace: seq<Parser>,
                                       k: nat)
    requires Traces(trace, p, events, source, q) && k <= |events|
    ensures Feed(p, events, source, k) == trace[k]
  {
    if k > 0 {
      ReadsIsFeed(p, events, source, q, trace, k - 1);
      assert StepsAt(trace, events, source, k - 1);
    }
  }

  /** An element opened on top of a visible stack is the innermost of its name when it is closed. */
  lemma {:induction false} InnermostCloses(stack: seq<(Tag, bool)>, tag: Tag)
    ensures Opening(stack + [(tag, false)], tag, |stack| + 1) == Some(|stack|)
    ensures (stack + [(tag, false)])[..|stack|] == stack
  {
  }

  function Pushed(p: Parser, tag: Tag): Parser {
    p.(stack := p.stack + [(tag, false)])
  }

  lemma SameTop(p: Parser)
    requires p.drafts != []
    ensures WithTop(p, Top(p)) == p
  {
    assert p.drafts[|p.drafts| - 1 := Top(p)] == p.drafts;
  }

  // ---------------------------------------------------------------- one cell

  lemma {:induction false} TextsJoinCell(p: Parser, text: seq<string>, source: Source, k: nat)
    requires !Hidden(p) && p.drafts != [] && Top(p).cell.Some? && k <= |text|
    ensures var c := Top(p).cell.value;
            Reads(p, Texts(text[..k]), source, WithTop(p, Top(p).(cell := Some(c.(text := c.text + text[..k])))))
  {
    var c := Top(p).cell.value;
    if k == 0 {
      assert c.text + text[..0] == c.text && Texts(text[..0]) == [];
      SameTop(p);
      ReadsNone(p, source);
    } else {
      TextsJoinCell(p, text, source, k - 1);
      var q := WithTop(p, Top(p).(cell := Some(c.(text := c.text + text[..k - 1]))));
      var r := WithTop(p, Top(p).(cell := Some(c.(text := c.text + text[..k]))));
      assert c.text + text[..k - 1] + [text[k - 1]] == c.text + text[..k];
      ReadsOne(q, Data(text[k - 1]), source, r);
      ReadsBoth(p, Texts(text[..k - 1]), q, [Data(text[k - 1])], r, source);
      assert Texts(text[..k]) == Texts(text[..k - 1]) + [Data(text[k - 1])];
    }
  }

  function DraftOf(c: CellMarkup, text: seq<string>): CellDraft {
    CellDraft(c.at, c.header, Clamp(c.rowSpan), Clamp(c.columnSpan), text)
  }

  function WithCell(p: Parser, c: CellMarkup, source: Source): Parser
    requires p.drafts != [] && Top(p).row.Some?
  {
    WithTop(p.(cells := p.cells + 1, truncated := p.truncated || source.bounded(c.text).1),
            Top(p).(row := Some(Top(p).row.value + [ReadCell(c, source)])))
  }

  /** A cell joins the open row. */
  lemma CellRead(p: Parser, c: CellMarkup, source: Source)
    requires !Hidden(p) && p.drafts != [] && Top(p).cell.None? && Top(p).row.Some?
    requires p.cells < MAX_STRUCTURED_TABLE_CELLS && c.at < c.end
    ensures Reads(p, CellEvents(c), source, WithCell(p, c, source))
  {
    var tag := CellTagOf(c);
    var start, end := StartTag(tag, c.at, false, false, c.rowSpan, c.columnSpan), EndTag(tag, c.end);
    var q := Pushed(WithTop(p, Top(p).(cell := Some(DraftOf(c, [])))), tag);
    var r := Pushed(WithTop(p, Top(p).(cell := Some(DraftOf(c, c.text)))), tag);
    CellOpens(p, start, source, DraftOf(c, []));
    TextsJoinCell(q, c.text, source, |c.text|);
    Units(c.text);
    assert WithTop(q, Top(q).(cell := Some(DraftOf(c, c.text)))) == r;
    CellCloses(p, r, c, source);
    ReadsAround(p, start, q, Texts(c.text), r, end, WithCell(p, c, source), source);
  }

  lemma CellOpens(p: Parser, e: Event, source: Source, draft: CellDraft)
    requires !Hidden(p) && p.drafts != [] && Top(p).cell.None? && Top(p).row.Some?
    requires e.StartTag? && (e.tag == TdTag || e.tag == ThTag) && !e.empty && !e.hiding
    requires draft == CellDraft(e.at, e.tag == ThTag, Clamp(e.rowSpan), Clamp(e.columnSpan), [])
    ensures Step(p, e, source) == Pushed(WithTop(p, Top(p).(cell := Some(draft))), e.tag)
  {
    assert Top(p).(row := Some(RowCells(Top(p).row))) == Top(p);
    SameTop(p);
  }

  lemma CellCloses(p: Parser, r: Parser, c: CellMarkup, source: Source)
    requires p.drafts != [] && Top(p).cell.None? && Top(p).row.Some?
    requires p.cells < MAX_STRUCTURED_TABLE_CELLS && c.at < c.end
    requires r == Pushed(WithTop(p, Top(p).(cell := Some(DraftOf(c, c.text)))), CellTagOf(c))
    ensures Step(r, EndTag(CellTagOf(c), c.end), source) == WithCell(p, c, source)
  {
    InnermostCloses(p.stack, CellTagOf(c));
  }

  // ---------------------------------------------------------------- rows

  function AfterCells(p: Parser, cells: seq<CellMarkup>, source: Source, k: nat): Parser
    requires p.drafts != [] && k <= |cells|
  {
    WithTop(p.(cells := p.cells + k, truncated := p.truncated || CellsCut(cells, source, k)),
            Top(p).(row := Some(ReadCells(cells, source, k))))
  }

  lemma {:induction false} CellsRead(p: Parser, cells: seq<CellMarkup>, source: Source, k: nat)
    requires !Hidden(p) && p.drafts != [] && Top(p).cell.None? && Top(p).row == Some([]) && k <= |cells|
    requires p.cells + k <= MAX_STRUCTURED_TABLE_CELLS && CellsInPlace(cells)
    ensures Reads(p, CellsEvents(cells, k), source, AfterCells(p, cells, source, k))
  {
    if k == 0 {
      assert ReadCells(cells, source, 0) == [];
      SameTop(p);
      ReadsNone(p, source);
    } else {
      CellsRead(p, cells, source, k - 1);
      var q := AfterCells(p, cells, source, k - 1);
      CellRead(q, cells[k - 1], source);
      assert ReadCells(cells, source, k) == ReadCells(cells, source, k - 1) + [ReadCell(cells[k - 1], source)];
      assert AfterCells(p, cells, source, k) == WithCell(q, cells[k - 1], source);
      ReadsBoth(p, CellsEvents(cells, k - 1), q, CellEvents(cells[k - 1]), AfterCells(p, cells, source, k), source);
    }
  }

  function WithRow(rows: seq<Row>, row: Row): seq<Row> {
    rows + if row == [] then [] else [row]
  }

  function AfterRow(p: Parser, r: RowMarkup, source: Source): Parser
    requires p.drafts != []
  {
    var n := |r.cells|;
    WithTop(p.(cells := p.cells + n, truncated := p.truncated || CellsCut(r.cells, source, n)),
            Top(p).(rows := WithRow(Top(p).rows, ReadCells(r.cells, source, n))))
  }

  /** A row joins the table, if it has a cell. */
  lemma RowRead(p: Parser, r: RowMarkup, source: Source)
    requires !Hidden(p) && p.drafts != [] && Top(p).cell.None? && Top(p).row.None?
    requires p.cells + |r.cells| <= MAX_STRUCTURED_TABLE_CELLS && |Top(p).rows| < MAX_STRUCTURED_TABLE_ROWS
    requires CellsInPlace(r.cells)
    ensures Reads(p, RowEvents(r), source, AfterRow(p, r, source))
  {
    var q := Pushed(WithTop(p, Top(p).(row := Some([]))), TrTag);
    RowOpens(p, r.at, source);
    CellsRead(q, r.cells, source, |r.cells|);
    RowCloses(p, q, r, source);
    ReadsAround(p, Opened(TrTag, r.at), q, CellsEvents(r.cells, |r.cells|), AfterCells(q, r.cells, source, |r.cells|),
                EndTag(TrTag, r.end), AfterRow(p, r, source), source);
  }

  lemma RowOpens(p: Parser, at: nat, source: Source)
    requires !Hidden(p) && p.drafts != [] && Top(p).cell.None? && Top(p).row.None?
    ensures Step(p, Opened(TrTag, at), source) == Pushed(WithTop(p, Top(p).(row := Some([]))), TrTag)
  {
    SameTop(p);
  }

  lemma RowCloses(p: Parser, q: Parser, r: RowMarkup, source: Source)
    requires p.drafts != [] && Top(p).cell.None? && Top(p).row.None?
    requires |Top(p).rows| < MAX_STRUCTURED_TABLE_ROWS
    requires q == Pushed(WithTop(p, Top(p).(row := Some([]))), TrTag)
    ensures Step(AfterCells(q, r.cells, source, |r.cells|), EndTag(TrTag, r.end), source) == AfterRow(p, r, source)
  {
    InnermostCloses(p.stack, TrTag);
    assert Top(p).rows + [] == Top(p).rows;
  }

  function AfterRows(p: Parser, rows: seq<RowMarkup>, source: Source, k: nat): Parser
    requires p.drafts != [] && k <= |rows|
  {
    WithTop(p.(cells := p.cells + CellCount(rows, k), truncated := p.truncated || RowsCut(rows, source, k)),
            Top(p).(rows := ReadRows(rows, source, k)))
  }

  lemma {:induction false} RowsRead(p: Parser, rows: seq<RowMarkup>, source: Source, k: nat)
    requires !Hidden(p) && p.drafts != [] && Top(p).cell.None? && Top(p).row.None? && Top(p).rows == []
    requires k <= |rows| <= MAX_STRUCTURED_TABLE_ROWS && p.cells + CellCount(rows, k) <= MAX_STRUCTURED_TABLE_CELLS
    requires RowsInPlace(rows)
    ensures Reads(p, RowsEvents(rows, k), source, AfterRows(p, rows, source, k))
    ensures |ReadRows(rows, source, k)| <= k
  {
    if k == 0 {
      SameTop(p);
      ReadsNone(p, source);
    } else {
      RowsRead(p, rows, source, k - 1);
      var q := AfterRows(p, rows, source, k - 1);
      RowRead(q, rows[k - 1], source);
      RowsGrow(p, rows, source, k);
      ReadsBoth(p, RowsEvents(rows, k - 1), q, RowEvents(rows[k - 1]), AfterRows(p, rows, source, k), source);
    }
  }

  lemma RowsGrow(p: Parser, rows: seq<RowMarkup>, source: Source, k: nat)
    requires p.drafts != [] && 0 < k <= |rows|
    ensures AfterRow(AfterRows(p, rows, source, k - 1), rows[k - 1], source) == AfterRows(p, rows, source, k)
    ensures |ReadRows(rows, source, k)| <= |ReadRows(rows, source, k - 1)| + 1
  {
    assert ReadRows(rows, source, k)
        == WithRow(ReadRows(rows, source, k - 1), ReadCells(rows[k - 1].cells, source, |rows[k - 1].cells|));
  }

  // ---------------------------------------------------------------- the table

  lemma {:induction false} TextsJoinCaption(p: Parser, text: seq<string>, source: Source, k: nat)
    requires !Hidden(p) && p.drafts != [] && Top(p).cell.None? && k <= |text|
    requires Top(p).captionOpen && Top(p).caption == Some([])
    ensures Reads(p, Texts(text[..k]), source, WithTop(p, Top(p).(caption := Some(text[..k]))))
  {
    if k == 0 {
      SameTop(p);
      assert Texts(text[..0]) == [];
      ReadsNone(p, source);
    } else {
      TextsJoinCaption(p, text, source, k - 1);
      var q := WithTop(p, Top(p).(caption := Some(text[..k - 1])));
      var r := WithTop(p, Top(p).(caption := Some(text[..k])));
      assert text[..k] == text[..k - 1] + [text[k - 1]];
      ReadsOne(q, Data(text[k - 1]), source, r);
      ReadsBoth(p, Texts(text[..k - 1]), q, [Data(text[k - 1])], r, source);
      assert Texts(text[..k]) == Texts(text[..k - 1]) + [Data(text[k - 1])];
    }
  }

  lemma CaptionRead(p: Parser, t: TableMarkup, source: Source)
    requires !Hidden(p) && p.drafts != [] && Top(p).cell.None? && !Top(p).captionOpen
    ensures Reads(p, CaptionEvents(t), source, WithTop(p, Top(p).(caption := Some(t.caption))))
  {
    var q := Pushed(WithTop(p, Top(p).(caption := Some([]), captionOpen := true)), CaptionTag);
    var r := Pushed(WithTop(p, Top(p).(caption := Some(t.caption), captionOpen := true)), CaptionTag);
    CaptionTags(p, t, source);
    TextsJoinCaption(q, t.caption, source, |t.caption|);
    Units(t.caption);
    assert WithTop(q, Top(q).(caption := Some(t.caption))) == r;
    ReadsAround(p, Opened(CaptionTag, t.captionAt), q, Texts(t.caption), r, EndTag(CaptionTag, t.captionEnd),
                WithTop(p, Top(p).(caption := Some(t.caption))), source);
  }

  lemma CaptionTags(p: Parser, t: TableMarkup, source: Source)
    requires !Hidden(p) && p.drafts != [] && Top(p).cell.None? && !Top(p).captionOpen
    ensures Step(p, Opened(CaptionTag, t.captionAt), source)
         == Pushed(WithTop(p, Top(p).(caption := Some([]), captionOpen := true)), CaptionTag)
    ensures var r := Pushed(WithTop(p, Top(p).(caption := Some(t.caption), captionOpen := true)), CaptionTag);
            Step(r, EndTag(CaptionTag, t.captionEnd), source) == WithTop(p, Top(p).(caption := Some(t.caption)))
  {
    InnermostCloses(p.stack, CaptionTag);
  }

  lemma {:induction false} TableCloses(p: Parser, q: Parser, t: TableMarkup, source: Source)
    requires |p.tables| < MAX_STRUCTURED_TABLES && t.at < t.end && ReadRows(t.rows, source, |t.rows|) != []
    requires q.stack == p.stack + [(TableTag, false)] && q.tables == p.tables
    requires q.drafts == p.drafts
               + [TableDraft(t.at, ReadRows(t.rows, source, |t.rows|), None, None, Some(t.caption), false)]
    ensures Step(q, EndTag(TableTag, t.end), source)
         == q.(stack := p.stack, drafts := p.drafts, tables := p.tables + [ReadTable(t, source)],
               truncated := q.truncated || source.bounded(t.caption).1)
  {
    InnermostCloses(p.stack, TableTag);
    assert q.drafts[..|q.drafts| - 1] == p.drafts;
  }

  /** The caption and the rows of a table just opened. */
  lemma BodyRead(p: Parser, t: TableMarkup, source: Source) returns (q: Parser, r: Parser)
    requires !Hidden(p) && p.drafts != [] && Top(p) == TableDraft(t.at, [], None, None, None, false) && InPlace(t)
    requires |t.rows| <= MAX_STRUCTURED_TABLE_ROWS
    requires p.cells + CellCount(t.rows, |t.rows|) <= MAX_STRUCTURED_TABLE_CELLS
    ensures Reads(p, CaptionEvents(t) + RowsEvents(t.rows, |t.rows|), source, r)
    ensures q == WithTop(p, Top(p).(caption := Some(t.caption))) && r == AfterRows(q, t.rows, source, |t.rows|)
  {
    q := WithTop(p, Top(p).(caption := Some(t.caption)));
    r := AfterRows(q, t.rows, source, |t.rows|);
    CaptionRead(p, t, source);
    RowsRead(q, t.rows, source, |t.rows|);
    ReadsBoth(p, CaptionEvents(t), q, RowsEvents(t.rows, |t.rows|), r, source);
  }

  function AfterTable(p: Parser, t: TableMarkup, source: Source): Parser {
    var n := |t.rows|;
    p.(tables := p.tables + [ReadTable(t, source)], cells := p.cells + CellCount(t.rows, n),
       truncated := p.truncated || RowsCut(t.rows, source, n) || source.bounded(t.caption).1)
  }

  /** Both tags of a table, and what is between them. */
  lemma WrittenTableReads(p: Parser, t: TableMarkup, source: Source)
    requires !Hidden(p) && InPlace(t) && |p.tables| < MAX_STRUCTURED_TABLES
    requires |t.rows| <= MAX_STRUCTURED_TABLE_ROWS
    requires p.cells + CellCount(t.rows, |t.rows|) <= MAX_STRUCTURED_TABLE_CELLS
    requires exists i :: 0 <= i < |t.rows| && t.rows[i].cells != []
    ensures Reads(p, TableEvents(t), source, AfterTable(p, t, source))
  {
    var n := |t.rows|;
    var begun := p.(drafts := p.drafts + [TableDraft(t.at, [], None, None, None, false)]);
    var q := Pushed(begun, TableTag);
    assert Step(p, Opened(TableTag, t.at), source) == q;
    var c, r := BodyRead(q, t, source);
    SomeRowRead(t.rows, source, n);
    TableCloses(p, r, t, source);
    ReadsAround(p, Opened(TableTag, t.at), q, CaptionEvents(t) + RowsEvents(t.rows, n), r, EndTag(TableTag, t.end),
                AfterTable(p, t, source), source);
    assert [Opened(TableTag, t.at)] + (CaptionEvents(t) + RowsEvents(t.rows, n)) + [EndTag(TableTag, t.end)]
        == TableEvents(t);
  }

  lemma {:induction false} SomeRowRead(rows: seq<RowMarkup>, source: Source, k: nat)
    requires k <= |rows|
    ensures (exists i :: 0 <= i < k && rows[i].cells != []) ==> ReadRows(rows, source, k) != []
  {
    if k > 0 { SomeRowRead(rows, source, k - 1); }
  }

  /**
   Round trip: wherever a visible table within the caps is written, even inside a cell of another, it is read as it is
   written, and nothing else of the parser changes but its counter of cells and the mark for cut text.
   */
  lemma {:induction false} WrittenTableIsRead(p: Parser, t: TableMarkup, source: Source)
    requires !Hidden(p) && InPlace(t) && |p.tables| < MAX_STRUCTURED_TABLES
    requires |t.rows| <= MAX_STRUCTURED_TABLE_ROWS
    requires p.cells + CellCount(t.rows, |t.rows|) <= MAX_STRUCTURED_TABLE_CELLS
    requires exists i :: 0 <= i < |t.rows| && t.rows[i].cells != []
    ensures var cut := RowsCut(t.rows, source, |t.rows|) || source.bounded(t.caption).1;
            var q := Feed(p, TableEvents(t), source, |TableEvents(t)|);
            q == p.(tables := p.tables + [ReadTable(t, source)], cells := p.cells + CellCount(t.rows, |t.rows|),
                    truncated := p.truncated || cut)
  {
    WrittenTableReads(p, t, source);
    var trace :| Traces(trace, p, TableEvents(t), source, AfterTable(p, t, source));
    ReadsIsFeed(p, TableEvents(t), source, AfterTable(p, t, source), trace, |TableEvents(t)|);
  }

  // ---------------------------------------------------------------- inside a hidden element

  /** The innermost open element is hidden. */
  predicate Concealed(p: Parser) {
    p.stack != [] && p.stack[|p.stack| - 1].1
  }

  lemma {:induction false} TextsSkipped(p: Parser, text: seq<string>, source: Source, k: nat)
    requires Concealed(p) && k <= |text|
    ensures Reads(p, Texts(text[..k]), source, p)
  {
    if k == 0 {
      assert Texts(text[..0]) == [];
      ReadsNone(p, source);
    } else {
      TextsSkipped(p, text, source, k - 1);
      ReadsOne(p, Data(text[k - 1]), source, p);
      ReadsBoth(p, Texts(text[..k - 1]), p, [Data(text[k - 1])], p, source);
      assert Texts(text[..k]) == Texts(text[..k - 1]) + [Data(text[k - 1])];
    }
  }

  /** An element in a hidden one is hidden too, and leaves nothing behind. */
  lemma ElementSkipped(p: Parser, start: Event, middle: seq<Event>, end: nat, source: Source)
    requires Concealed(p) && start.StartTag? && !start.empty
    requires var q := p.(stack := p.stack + [(start.tag, true)]); Reads(q, middle, source, q)
    ensures Reads(p, [start] + middle + [EndTag(start.tag, end)], source, p)
  {
    var q := p.(stack := p.stack + [(start.tag, true)]);
    assert Opening(q.stack, start.tag, |q.stack|) == Some(|p.stack|);
    assert q.stack[..|p.stack|] == p.stack;
    ReadsAround(p, start, q, middle, q, EndTag(start.tag, end), p, source);
  }

  lemma TextSkipped(p: Parser, start: Event, text: seq<string>, end: nat, source: Source)
    requires Concealed(p) && start.StartTag? && !start.empty
    ensures Reads(p, [start] + Texts(text) + [EndTag(start.tag, end)], source, p)
  {
    TextsSkipped(p.(stack := p.stack + [(start.tag, true)]), text, source, |text|);
    Units(text);
    ElementSkipped(p, start, Texts(text), end, source);
  }

  lemma {:induction false} CellsSkipped(p: Parser, cells: seq<CellMarkup>, source: Source, k: nat)
    requires Concealed(p) && k <= |cells|
    ensures Reads(p, CellsEvents(cells, k), source, p)
  {
    if k == 0 {
      ReadsNone(p, source);
    } else {
      CellsSkipped(p, cells, source, k - 1);
      var c := cells[k - 1];
      TextSkipped(p, StartTag(CellTagOf(c), c.at, false, false, c.rowSpan, c.columnSpan), c.text, c.end, source);
      ReadsBoth(p, CellsEvents(cells, k - 1), p, CellEvents(c), p, source);
    }
  }

  lemma {:induction false} RowsSkipped(p: Parser, rows: seq<RowMarkup>, source: Source, k: nat)
    requires Concealed(p) && k <= |rows|
    ensures Reads(p, RowsEvents(rows, k), source, p)
  {
    if k == 0 {
      ReadsNone(p, source);
    } else {
      RowsSkipped(p, rows, source, k - 1);
      var r := rows[k - 1];
      CellsSkipped(p.(stack := p.stack + [(TrTag, true)]), r.cells, source, |r.cells|);
      ElementSkipped(p, Opened(TrTag, r.at), CellsEvents(r.cells, |r.cells|), r.end, source);
      ReadsBoth(p, RowsEvents(rows, k - 1), p, RowEvents(r), p, source);
    }
  }

  /** A table written inside a hidden element is not read at all. */
  lemma {:induction false} HiddenTableIsSkipped(p: Parser, t: TableMarkup, source: Source)
    requires Concealed(p)
    ensures Feed(p, TableEvents(t), source, |TableEvents(t)|) == p
  {
    var q := p.(stack := p.stack + [(TableTag, true)]);
    TextSkipped(q, Opened(CaptionTag, t.captionAt), t.caption, t.captionEnd, source);
    RowsSkipped(q, t.rows, source, |t.rows|);
    ReadsBoth(q, CaptionEvents(t), q, RowsEvents(t.rows, |t.rows|), q, source);
    var body := CaptionEvents(t) + RowsEvents(t.rows, |t.rows|);
    ElementSkipped(p, Opened(TableTag, t.at), body, t.end, source);
    assert [Opened(TableTag, t.at)] + body + [EndTag(TableTag, t.end)] == TableEvents(t);
    var trace :| Traces(trace, p, TableEvents(t), source, p);
    ReadsIsFeed(p, TableEvents(t), source, p, trace, |TableEvents(t)|);
  }
}
