/**
 * The table part of the structured parser as a stack machine over tag events. Whatever the tags, nested or unbalanced,
 * every cell opened is in the end kept in a table or counted as omitted.
 */
module StructuredTables {
  import opened Options

  const MAX_STRUCTURED_TABLES := 20
  const MAX_STRUCTURED_TABLE_ROWS := 100
  const MAX_STRUCTURED_TABLE_CELLS := 1000

  datatype Tag = TableTag | CaptionTag | TrTag | TdTag | ThTag | OtherTag(name: string)

  datatype Reference = Reference(start: nat, end: nat)

  datatype Cell = Cell(text: string, header: bool, rowSpan: nat, columnSpan: nat, source: Reference)

  datatype CellDraft = CellDraft(start: nat, header: bool, rowSpan: nat, columnSpan: nat, text: seq<string>)

  type Row = seq<Cell>

  datatype TableDraft = TableDraft(
    start: nat,
    rows: seq<Row>,
    row: Option<Row>,
    cell: Option<CellDraft>,
    caption: Option<seq<string>>,
    captionOpen: bool)

  datatype Table = Table(caption: string, rows: seq<Row>, source: Reference)

  datatype Parser = Parser(
    stack: seq<(Tag, bool)>,
    drafts: seq<TableDraft>,
    tables: seq<Table>,
    omitted: nat,
    truncated: bool,
    cells: int)

  /** What the parser is given: source length, and how text is joined and bounded. */
  datatype Source = Source(length: nat, bounded: seq<string> -> (string, bool))

  /** Tag events as the tokenizer reports them, with what attributes and positions say. */
  datatype Event =
    | StartTag(tag: Tag, at: nat, empty: bool, hiding: bool, rowSpan: int, columnSpan: int)
    | EndTag(tag: Tag, at: nat)
    | Data(text: string)

  // ---------------------------------------------------------------- the machine

  /** A parser that has seen nothing. */
  predicate Fresh(p: Parser) {
    p.stack == [] && p.drafts == [] && p.tables == [] && p.omitted == 0 && !p.truncated && p.cells == 0
  }

  function Clamp(span: int): nat {
    if span < 1 then 1 else if span > 100 then 100 else span
  }

  function ReferenceTo(source: Source, start: nat, end: nat): Reference {
    if end <= start then Reference(start, if start + 1 < source.length then start + 1 else source.length)
    else Reference(start, end)
  }

  predicate Hidden(p: Parser) {
    p.stack != [] && p.stack[|p.stack| - 1].1
  }

  function RowCells(row: Option<Row>): Row {
    if row.None? then [] else row.value
  }

  /** The open cell joins the row, unless the cap on cells is reached. */
  function FinishCell(p: Parser, t: TableDraft, end: nat, source: Source): (Parser, TableDraft) {
    if t.cell.None? then (p, t)
    else
      var draft := t.cell.value;
      var (text, cut) := source.bounded(draft.text);
      if p.cells >= MAX_STRUCTURED_TABLE_CELLS then
        (p.(omitted := p.omitted + 1, truncated := true), t.(cell := None))
      else
        var cell := Cell(text, draft.header, draft.rowSpan, draft.columnSpan, ReferenceTo(source, draft.start, end));
        (p.(cells := p.cells + 1, truncated := p.truncated || cut),
         t.(cell := None, row := Some(RowCells(t.row) + [cell])))
  }

  /** The open row joins the table, unless it is empty or the cap on rows is reached. */
  function FinishRow(p: Parser, t: TableDraft, end: nat, source: Source): (Parser, TableDraft) {
    var (q, u) := FinishCell(p, t, end, source);
    if u.row.None? then (q, u)
    else if u.row.value == [] then (q, u.(row := None))
    else if |u.rows| < MAX_STRUCTURED_TABLE_ROWS then (q, u.(rows := u.rows + [u.row.value], row := None))
    else
      (q.(omitted := q.omitted + |u.row.value|, truncated := true, cells := q.cells - |u.row.value|), u.(row := None))
  }

  function CellsIn(rows: seq<Row>): nat {
    if rows == [] then 0 else CellsIn(rows[..|rows| - 1]) + |rows[|rows| - 1]|
  }

  function Max(a: nat, b: nat): nat {
    if a < b then b else a
  }

  /** The innermost table ends. */
  function FinishTable(p: Parser, end: nat, source: Source): Parser
    requires p.drafts != []
  {
    var n := |p.drafts| - 1;
    var (q, t) := FinishRow(p.(drafts := p.drafts[..n]), p.drafts[n], end, source);
    KeepTable(q, t, end, source)
  }

  /** A table with rows is kept, unless the cap on tables is reached. */
  function KeepTable(p: Parser, t: TableDraft, end: nat, source: Source): Parser {
    var (caption, cut) := source.bounded(if t.caption.None? then [] else t.caption.value);
    if t.rows == [] then p
    else if |p.tables| >= MAX_STRUCTURED_TABLES then
      p.(omitted := p.omitted + Max(1, CellsIn(t.rows)), truncated := true, cells := p.cells - CellsIn(t.rows))
    else
      p.(tables := p.tables + [Table(caption, t.rows, ReferenceTo(source, t.start, end))], truncated := p.truncated
        || cut)
  }

  function WithTop(p: Parser, t: TableDraft): Parser
    requires p.drafts != []
  {
    p.(drafts := p.drafts[|p.drafts| - 1 := t])
  }

  function Top(p: Parser): TableDraft
    requires p.drafts != []
  {
    p.drafts[|p.drafts| - 1]
  }

  predicate OpensCell(p: Parser, e: Event) {
    e.StartTag? && (e.tag == TdTag || e.tag == ThTag) && !Hidden(p) && !e.hiding && p.drafts != []
  }

  function OpenTable(p: Parser, at: nat): Parser {
    p.(drafts := p.drafts + [TableDraft(at, [], None, None, None, false)])
  }

  function OpenCaption(p: Parser): Parser
    requires p.drafts != []
  {
    WithTop(p, Top(p).(caption := Some([]), captionOpen := true))
  }

  function CloseRow(p: Parser, at: nat, source: Source): Parser
    requires p.drafts != []
  {
    var (q, t) := FinishRow(p, Top(p), at, source);
    WithTop(q.(drafts := p.drafts), t)
  }

  function OpenRow(p: Parser, at: nat, source: Source): Parser
    requires p.drafts != []
  {
    var q := CloseRow(p, at, source);
    WithTop(q, Top(q).(row := Some([])))
  }

  function CloseCell(p: Parser, at: nat, source: Source): Parser
    requires p.drafts != []
  {
    var (q, t) := FinishCell(p, Top(p), at, source);
    WithTop(q.(drafts := p.drafts), t)
  }

  function OpenCell(p: Parser, e: Event, source: Source): Parser
    requires p.drafts != [] && e.StartTag?
  {
    var q := CloseCell(WithTop(p, Top(p).(row := Some(RowCells(Top(p).row)))), e.at, source);
    WithTop(q, Top(q).(cell := Some(CellDraft(e.at, e.tag == ThTag, Clamp(e.rowSpan), Clamp(e.columnSpan), []))))
  }

  function Start(p: Parser, e: Event, source: Source): Parser
    requires e.StartTag?
  {
    var hidden := Hidden(p) || e.hiding;
    var q := if e.empty then p else p.(stack := p.stack + [(e.tag, hidden)]);
    if hidden then q else Opens(q, e, source)
  }

  /** What a visible start tag opens. */
  function Opens(p: Parser, e: Event, source: Source): Parser
    requires e.StartTag?
  {
    if e.tag == TableTag then OpenTable(p, e.at)
    else if p.drafts == [] then p
    else if e.tag == CaptionTag then OpenCaption(p)
    else if e.tag == TrTag then OpenRow(p, e.at, source)
    else if e.tag == TdTag || e.tag == ThTag then OpenCell(p, e, source)
    else p
  }

  /** The innermost open element of that name. */
  function Opening(stack: seq<(Tag, bool)>, tag: Tag, k: nat): Option<nat>
    requires k <= |stack|
    ensures Opening(stack, tag, k).Some? ==> Opening(stack, tag, k).value < k
  {
    if k == 0 then None else if stack[k - 1].0 == tag then Some(k - 1) else Opening(stack, tag, k - 1)
  }

  function End(p: Parser, e: Event, source: Source): Parser
    requires e.EndTag?
  {
    var opening := Opening(p.stack, e.tag, |p.stack|);
    var hidden := opening.Some? && p.stack[opening.value].1;
    var q := if hidden || p.drafts == [] then p else Closes(p, e, source);
    if opening.Some? then q.(stack := p.stack[..opening.value]) else q
  }

  /** What a visible end tag closes in the innermost table. */
  function Closes(p: Parser, e: Event, source: Source): Parser
    requires e.EndTag? && p.drafts != []
  {
    if e.tag == TdTag || e.tag == ThTag then CloseCell(p, e.at, source)
    else if e.tag == TrTag then CloseRow(p, e.at, source)
    else if e.tag == CaptionTag then WithTop(p, Top(p).(captionOpen := false))
    else if e.tag == TableTag then FinishTable(p, e.at, source)
    else p
  }

  function Text(p: Parser, text: string): Parser {
    if Hidden(p) || p.drafts == [] then p
    else
      var t := Top(p);
      if t.cell.Some? then WithTop(p, t.(cell := Some(t.cell.value.(text := t.cell.value.text + [text]))))
      else if t.captionOpen && t.caption.Some? then WithTop(p, t.(caption := Some(t.caption.value + [text])))
      else p
  }

  function Step(p: Parser, e: Event, source: Source): Parser {
    match e
    case StartTag(_, _, _, _, _, _) => Start(p, e, source)
    case EndTag(_, _) => End(p, e, source)
    case Data(text) => Text(p, text)
  }

  function Feed(start: Parser, events: seq<Event>, source: Source, k: nat): Parser
    requires k <= |events|
  {
    if k == 0 then start else Step(Feed(start, events, source, k - 1), events[k - 1], source)
  }

  /** At the end of the source every table still open ends, innermost first. */
  function FinishTables(p: Parser, source: Source): Parser
    decreases |p.drafts|
  {
    if p.drafts == [] then p
    else
      DraftsShrink(p, source.length, source);
      FinishTables(FinishTable(p, source.length, source), source)
  }

  lemma DraftsShrink(p: Parser, end: nat, source: Source)
    requires p.drafts != []
    ensures FinishTable(p, end, source).drafts == p.drafts[..|p.drafts| - 1]
  {
  }

  // ---------------------------------------------------------------- what is finished stays

  /** The rows of every table still open, and all finished tables, are those there were and perhaps more behind them. */
  predicate Extends(p: Parser, q: Parser) {
    && p.tables <= q.tables
    && forall i :: 0 <= i < |p.drafts| && i < |q.drafts| ==> p.drafts[i].rows <= q.drafts[i].rows
  }

  lemma RowExtends(p: Parser, t: TableDraft, end: nat, source: Source)
    ensures var (q, u) := FinishRow(p, t, end, source);
            q.tables == p.tables && q.drafts == p.drafts && t.rows <= u.rows
  {
  }

  lemma CloseRowExtends(p: Parser, at: nat, source: Source)
    requires p.drafts != []
    ensures var q := CloseRow(p, at, source); |q.drafts| == |p.drafts| && Extends(p, q)
  {
    RowExtends(p, Top(p), at, source);
  }

  lemma CloseCellExtends(p: Parser, at: nat, source: Source)
    requires p.drafts != []
    ensures var q := CloseCell(p, at, source); |q.drafts| == |p.drafts| && Extends(p, q)
  {
  }

  lemma OpenExtends(p: Parser, e: Event, source: Source)
    requires e.StartTag? && p.drafts != []
    ensures Extends(p, OpenRow(p, e.at, source)) && Extends(p, OpenCell(p, e, source))
  {
    CloseRowExtends(p, e.at, source);
    CloseCellExtends(WithTop(p, Top(p).(row := Some(RowCells(Top(p).row)))), e.at, source);
  }

  lemma TableExtends(p: Parser, end: nat, source: Source)
    requires p.drafts != []
    ensures Extends(p, FinishTable(p, end, source))
  {
    var n := |p.drafts| - 1;
    RowExtends(p.(drafts := p.drafts[..n]), p.drafts[n], end, source);
    DraftsShrink(p, end, source);
  }

  lemma OpensExtends(p: Parser, e: Event, source: Source)
    requires e.StartTag?
    ensures Extends(p, Opens(p, e, source))
  {
    if e.tag != TableTag && p.drafts != [] {
      if e.tag in {TrTag, TdTag, ThTag} { OpenExtends(p, e, source); }
    }
  }

  lemma ClosesExtends(p: Parser, e: Event, source: Source)
    requires e.EndTag? && p.drafts != []
    ensures Extends(p, Closes(p, e, source))
  {
    if e.tag == TdTag || e.tag == ThTag {
      CloseCellExtends(p, e.at, source);
    } else if e.tag == TrTag {
      CloseRowExtends(p, e.at, source);
    } else if e.tag == TableTag {
      TableExtends(p, e.at, source);
    }
  }

  lemma StartExtends(p: Parser, e: Event, source: Source)
    requires e.StartTag?
    ensures Extends(p, Start(p, e, source))
  {
    var q := if e.empty then p else p.(stack := p.stack + [(e.tag, Hidden(p) || e.hiding)]);
    OpensExtends(q, e, source);
    assert Extends(p, q);
    assert Start(p, e, source) == q || Start(p, e, source) == Opens(q, e, source);
  }

  lemma EndExtends(p: Parser, e: Event, source: Source)
    requires e.EndTag?
    ensures Extends(p, End(p, e, source))
  {
    if p.drafts != [] { ClosesExtends(p, e, source); }
  }

  lemma StepExtends(p: Parser, e: Event, source: Source)
    ensures Extends(p, Step(p, e, source))
  {
    match e
    case StartTag(_, _, _, _, _, _) => StartExtends(p, e, source);
    case EndTag(_, _) => EndExtends(p, e, source);
    case Data(text) =>
  }

  /** A table that is finished is never changed nor dropped, whatever tags follow. */
  lemma {:induction false} FinishedStay(start: Parser, events: seq<Event>, source: Source, k: nat, m: nat)
    requires k <= m <= |events|
    ensures Feed(start, events, source, k).tables <= Feed(start, events, source, m).tables
    decreases m
  {
    if k < m {
      FinishedStay(start, events, source, k, m - 1);
      StepExtends(Feed(start, events, source, m - 1), events[m - 1], source);
      assert Feed(start, events, source, m)
          == Step(Feed(start, events, source, m - 1), events[m - 1], source);
    }
  }

  // ---------------------------------------------------------------- accounting

  function DraftCells(t: TableDraft): nat {
    CellsIn(t.rows) + |RowCells(t.row)|
  }

  function OpenCells(t: TableDraft): nat {
    if t.cell.Some? then 1 else 0
  }

  function DraftsCells(drafts: seq<TableDraft>): nat {
    if drafts == [] then 0 else DraftsCells(drafts[..|drafts| - 1]) + DraftCells(drafts[|drafts| - 1])
  }

  function DraftsOpen(drafts: seq<TableDraft>): nat {
    if drafts == [] then 0 else DraftsOpen(drafts[..|drafts| - 1]) + OpenCells(drafts[|drafts| - 1])
  }

  function TablesCells(tables: seq<Table>): nat {
    if tables == [] then 0 else TablesCells(tables[..|tables| - 1]) + CellsIn(tables[|tables| - 1].rows)
  }

  function Retained(p: Parser): nat {
    TablesCells(p.tables) + DraftsCells(p.drafts)
  }

  predicate RowsOk(rows: seq<Row>) {
    |rows| <= MAX_STRUCTURED_TABLE_ROWS && forall i :: 0 <= i < |rows| ==> rows[i] != []
  }

  /** The cell counter is right, the caps hold, and every cell begun is kept, omitted or still open. */
  ghost predicate Accounts(p: Parser, begun: nat) {
    && p.cells == Retained(p) <= MAX_STRUCTURED_TABLE_CELLS
    && begun == Retained(p) + p.omitted + DraftsOpen(p.drafts)
    && TablesOk(p.tables)
    && (forall i :: 0 <= i < |p.drafts| ==> RowsOk(p.drafts[i].rows))
  }

  ghost predicate TablesOk(tables: seq<Table>) {
    && |tables| <= MAX_STRUCTURED_TABLES
    && forall i :: 0 <= i < |tables| ==> RowsOk(tables[i].rows) && tables[i].rows != []
  }

  /** From (p, t) to (q, u) no cell is lost: what the draft loses, the parser counts as omitted. */
  ghost predicate Balanced(p: Parser, t: TableDraft, q: Parser, u: TableDraft) {
    && q.drafts == p.drafts && q.tables == p.tables && q.stack == p.stack
    && q.cells - p.cells == DraftCells(u) - DraftCells(t)
    && q.omitted + DraftCells(u) + OpenCells(u) == p.omitted + DraftCells(t) + OpenCells(t)
    && (p.cells <= MAX_STRUCTURED_TABLE_CELLS ==> q.cells <= MAX_STRUCTURED_TABLE_CELLS)
    && (RowsOk(t.rows) ==> RowsOk(u.rows))
  }

  lemma FinishCellBalances(p: Parser, t: TableDraft, end: nat, source: Source)
    ensures var (q, u) := FinishCell(p, t, end, source); Balanced(p, t, q, u) && u.cell == None && u.rows == t.rows
  {
  }

  lemma {:induction false} CellsInSnoc(rows: seq<Row>, row: Row)
    ensures CellsIn(rows + [row]) == CellsIn(rows) + |row|
  {
    assert (rows + [row])[..|rows|] == rows;
  }

  lemma FinishRowBalances(p: Parser, t: TableDraft, end: nat, source: Source)
    ensures var (q, u) := FinishRow(p, t, end, source); Balanced(p, t, q, u) && u.cell == None && u.row == None
  {
    FinishCellBalances(p, t, end, source);
    var (q, u) := FinishCell(p, t, end, source);
    if u.row.Some? { CellsInSnoc(u.rows, u.row.value); }
  }

  lemma {:induction false} DraftsSnoc(drafts: seq<TableDraft>, t: TableDraft)
    ensures DraftsCells(drafts + [t]) == DraftsCells(drafts) + DraftCells(t)
    ensures DraftsOpen(drafts + [t]) == DraftsOpen(drafts) + OpenCells(t)
  {
    assert (drafts + [t])[..|drafts|] == drafts;
  }

  lemma DraftsTop(drafts: seq<TableDraft>, t: TableDraft)
    requires drafts != []
    ensures var n := |drafts| - 1; var more := drafts[n := t];
            && DraftsCells(more) == DraftsCells(drafts) - DraftCells(drafts[n]) + DraftCells(t)
            && DraftsOpen(more) == DraftsOpen(drafts) - OpenCells(drafts[n]) + OpenCells(t)
  {
    var n := |drafts| - 1;
    assert drafts[n := t][..n] == drafts[..n];
  }

  /** A draft is replaced by one it balances with: the accounts hold, with as many cells more as it has open ones. */
  lemma TopAccounts(p: Parser, begun: nat, q: Parser, u: TableDraft)
    requires Accounts(p, begun) && p.drafts != [] && Balanced(p, Top(p), q, u)
    ensures Accounts(WithTop(q, u), begun)
  {
    DraftsTop(p.drafts, u);
    forall i | 0 <= i < |p.drafts|
      ensures RowsOk(WithTop(q, u).drafts[i].rows)
    {
      assert RowsOk(p.drafts[i].rows);
    }
  }

  /** The same rows and cells, up to the cell that is open. */
  lemma SameCells(p: Parser, begun: nat, u: TableDraft)
    requires Accounts(p, begun) && p.drafts != []
    requires u.rows == Top(p).rows && RowCells(u.row) == RowCells(Top(p).row)
    requires OpenCells(u) >= OpenCells(Top(p))
    ensures Accounts(WithTop(p, u), begun + OpenCells(u) - OpenCells(Top(p)))
  {
    DraftsTop(p.drafts, u);
    forall i | 0 <= i < |p.drafts|
      ensures RowsOk(WithTop(p, u).drafts[i].rows)
    {
      assert RowsOk(p.drafts[i].rows);
    }
  }

  lemma {:induction false} TablesSnoc(tables: seq<Table>, t: Table)
    ensures TablesCells(tables + [t]) == TablesCells(tables) + CellsIn(t.rows)
  {
    assert (tables + [t])[..|tables|] == tables;
  }

  lemma {:induction false} CellsInPositive(rows: seq<Row>)
    requires RowsOk(rows) && rows != []
    ensures CellsIn(rows) >= 1
  {
  }

  /** A finished table is kept whole, or dropped with all its cells omitted, or had none. */
  lemma KeepTableAccounts(p: Parser, begun: nat, t: TableDraft, end: nat, source: Source)
    requires p.cells == Retained(p) + CellsIn(t.rows) <= MAX_STRUCTURED_TABLE_CELLS
    requires begun == Retained(p) + CellsIn(t.rows) + p.omitted + DraftsOpen(p.drafts)
    requires TablesOk(p.tables) && RowsOk(t.rows)
    requires forall i :: 0 <= i < |p.drafts| ==> RowsOk(p.drafts[i].rows)
    ensures Accounts(KeepTable(p, t, end, source), begun)
  {
    if t.rows != [] {
      CellsInPositive(t.rows);
      var (caption, cut) := source.bounded(if t.caption.None? then [] else t.caption.value);
      TablesSnoc(p.tables, Table(caption, t.rows, ReferenceTo(source, t.start, end)));
    }
  }

  lemma FinishTableAccounts(p: Parser, begun: nat, end: nat, source: Source)
    requires Accounts(p, begun) && p.drafts != []
    ensures Accounts(FinishTable(p, end, source), begun)
  {
    var n := |p.drafts| - 1;
    var below := p.(drafts := p.drafts[..n]);
    FinishRowBalances(below, p.drafts[n], end, source);
    var (q, t) := FinishRow(below, p.drafts[n], end, source);
    assert RowsOk(p.drafts[n].rows);
    KeepTableAccounts(q, begun, t, end, source);
  }

  lemma CloseRowAccounts(p: Parser, begun: nat, at: nat, source: Source)
    requires Accounts(p, begun) && p.drafts != []
    ensures Accounts(CloseRow(p, at, source), begun)
    ensures Top(CloseRow(p, at, source)).row == None && Top(CloseRow(p, at, source)).cell == None
  {
    FinishRowBalances(p, Top(p), at, source);
    var (q, t) := FinishRow(p, Top(p), at, source);
    TopAccounts(p, begun, q, t);
  }

  lemma CloseCellAccounts(p: Parser, begun: nat, at: nat, source: Source)
    requires Accounts(p, begun) && p.drafts != []
    ensures Accounts(CloseCell(p, at, source), begun) && Top(CloseCell(p, at, source)).cell == None
  {
    FinishCellBalances(p, Top(p), at, source);
    var (q, t) := FinishCell(p, Top(p), at, source);
    TopAccounts(p, begun, q, t);
  }

  lemma OpenRowAccounts(p: Parser, begun: nat, at: nat, source: Source)
    requires Accounts(p, begun) && p.drafts != []
    ensures Accounts(OpenRow(p, at, source), begun)
  {
    CloseRowAccounts(p, begun, at, source);
    var q := CloseRow(p, at, source);
    SameCells(q, begun, Top(q).(row := Some([])));
  }

  lemma OpenCellAccounts(p: Parser, begun: nat, e: Event, source: Source)
    requires Accounts(p, begun) && p.drafts != [] && e.StartTag?
    ensures Accounts(OpenCell(p, e, source), begun + 1)
  {
    var t := Top(p).(row := Some(RowCells(Top(p).row)));
    SameCells(p, begun, t);
    CloseCellAccounts(WithTop(p, t), begun, e.at, source);
    var q := CloseCell(WithTop(p, t), e.at, source);
    var draft := CellDraft(e.at, e.tag == ThTag, Clamp(e.rowSpan), Clamp(e.columnSpan), []);
    SameCells(q, begun, Top(q).(cell := Some(draft)));
  }

  lemma OpenTableAccounts(p: Parser, begun: nat, at: nat)
    requires Accounts(p, begun)
    ensures Accounts(OpenTable(p, at), begun)
  {
    DraftsSnoc(p.drafts, TableDraft(at, [], None, None, None, false));
  }

  /** Accounts do not look at the element stack. */
  lemma StackAccounts(p: Parser, begun: nat, stack: seq<(Tag, bool)>)
    requires Accounts(p, begun)
    ensures Accounts(p.(stack := stack), begun)
  {
  }

  predicate CellTag(tag: Tag) {
    tag == TdTag || tag == ThTag
  }

  lemma OpensAccounts(p: Parser, begun: nat, e: Event, source: Source)
    requires Accounts(p, begun) && e.StartTag?
    ensures Accounts(Opens(p, e, source), begun + if CellTag(e.tag) && p.drafts != [] then 1 else 0)
  {
    if e.tag == TableTag {
      OpenTableAccounts(p, begun, e.at);
    } else if p.drafts != [] {
      if e.tag == CaptionTag {
        SameCells(p, begun, Top(p).(caption := Some([]), captionOpen := true));
      } else if e.tag == TrTag {
        OpenRowAccounts(p, begun, e.at, source);
      } else if CellTag(e.tag) {
        OpenCellAccounts(p, begun, e, source);
      }
    }
  }

  lemma StartAccounts(p: Parser, begun: nat, e: Event, source: Source)
    requires Accounts(p, begun) && e.StartTag?
    ensures Accounts(Start(p, e, source), begun + if OpensCell(p, e) then 1 else 0)
  {
    var hidden := Hidden(p) || e.hiding;
    var q := if e.empty then p else p.(stack := p.stack + [(e.tag, hidden)]);
    StackAccounts(p, begun, q.stack);
    if !hidden { OpensAccounts(q, begun, e, source); }
  }

  lemma ClosesAccounts(p: Parser, begun: nat, e: Event, source: Source)
    requires Accounts(p, begun) && e.EndTag? && p.drafts != []
    ensures Accounts(Closes(p, e, source), begun)
  {
    if CellTag(e.tag) {
      CloseCellAccounts(p, begun, e.at, source);
    } else if e.tag == TrTag {
      CloseRowAccounts(p, begun, e.at, source);
    } else if e.tag == CaptionTag {
      SameCells(p, begun, Top(p).(captionOpen := false));
    } else if e.tag == TableTag {
      FinishTableAccounts(p, begun, e.at, source);
    }
  }

  lemma EndAccounts(p: Parser, begun: nat, e: Event, source: Source)
    requires Accounts(p, begun) && e.EndTag?
    ensures Accounts(End(p, e, source), begun)
  {
    var opening := Opening(p.stack, e.tag, |p.stack|);
    var hidden := opening.Some? && p.stack[opening.value].1;
    var q := if hidden || p.drafts == [] then p else Closes(p, e, source);
    if !hidden && p.drafts != [] { ClosesAccounts(p, begun, e, source); }
    StackAccounts(q, begun, if opening.Some? then p.stack[..opening.value] else q.stack);
  }

  lemma TextAccounts(p: Parser, begun: nat, text: string)
    requires Accounts(p, begun)
    ensures Accounts(Text(p, text), begun)
  {
    if !Hidden(p) && p.drafts != [] {
      var t := Top(p);
      if t.cell.Some? {
        SameCells(p, begun, t.(cell := Some(t.cell.value.(text := t.cell.value.text + [text]))));
      } else if t.captionOpen && t.caption.Some? {
        SameCells(p, begun, t.(caption := Some(t.caption.value + [text])));
      }
    }
  }

  /** How many cells the events begin. */
  function Begun(start: Parser, events: seq<Event>, source: Source, k: nat): nat
    requires k <= |events|
  {
    if k == 0 then 0
    else
      var opens := OpensCell(Feed(start, events, source, k - 1), events[k - 1]);
      Begun(start, events, source, k - 1) + if opens then 1 else 0
  }

  lemma EmptyAccounts(p: Parser)
    requires Fresh(p)
    ensures Accounts(p, 0)
  {
  }

  lemma {:induction false} FeedAccounts(start: Parser, events: seq<Event>, source: Source, k: nat)
    returns (p: Parser, begun: nat)
    requires Fresh(start) && k <= |events|
    ensures p == Feed(start, events, source, k) && begun == Begun(start, events, source, k) && Accounts(p, begun)
  {
    if k == 0 {
      p, begun := start, 0;
      EmptyAccounts(p);
    } else {
      var was, before := FeedAccounts(start, events, source, k - 1);
      p, begun := StepAccounts(was, before, events[k - 1], source);
    }
  }

  lemma StepAccounts(p: Parser, begun: nat, e: Event, source: Source) returns (q: Parser, now: nat)
    requires Accounts(p, begun)
    ensures q == Step(p, e, source) && now == begun + (if OpensCell(p, e) then 1 else 0) && Accounts(q, now)
  {
    q, now := Step(p, e, source), begun + if OpensCell(p, e) then 1 else 0;
    match e
    case StartTag(_, _, _, _, _, _) => StartAccounts(p, begun, e, source);
    case EndTag(_, _) => EndAccounts(p, begun, e, source);
    case Data(text) => TextAccounts(p, begun, text);
  }

  lemma {:induction false} FinishAccounts(p: Parser, begun: nat, source: Source)
    requires Accounts(p, begun)
    ensures Accounts(FinishTables(p, source), begun) && FinishTables(p, source).drafts == []
    decreases |p.drafts|
  {
    if p.drafts != [] {
      DraftsShrink(p, source.length, source);
      FinishTableAccounts(p, begun, source.length, source);
      FinishAccounts(FinishTable(p, source.length, source), begun, source);
    }
  }

  /** For any tags whatever: every cell begun is retained in a finished table or omitted, and the caps hold. */
  lemma {:induction false} EveryCellAccounted(start: Parser, events: seq<Event>, source: Source)
    requires Fresh(start)
    ensures var p := FinishTables(Feed(start, events, source, |events|), source);
            && Begun(start, events, source, |events|) == TablesCells(p.tables) + p.omitted
            && TablesCells(p.tables) <= MAX_STRUCTURED_TABLE_CELLS && TablesOk(p.tables)
  {
    var p, begun := FeedAccounts(start, events, source, |events|);
    FinishAccounts(p, begun, source);
  }

  // ---------------------------------------------------------------- the parser object

  class StructuredParser {
    const source: Source
    var stack: seq<(Tag, bool)>
    var activeTables: seq<TableDraft>
    var tables: seq<Table>
    var omittedTables: nat
    var tablesTruncated: bool
    var cells: int

    constructor (source: Source)
      ensures this.source == source && Fresh(State())
    {
      this.source := source;
      stack, activeTables, tables, omittedTables, tablesTruncated, cells := [], [], [], 0, false, 0;
    }

    function State(): Parser
      reads this
    {
      Parser(stack, activeTables, tables, omittedTables, tablesTruncated, cells)
    }

    method HandleStartTag(e: Event)
      requires e.StartTag?
      modifies this
      ensures State() == Start(old(State()), e, source)
    {
      var hidden := Hidden(State()) || e.hiding;
      if !e.empty { stack := stack + [(e.tag, hidden)]; }
      if hidden { return; }
      if e.tag == TableTag {
        activeTables := activeTables + [TableDraft(e.at, [], None, None, None, false)];
        return;
      }
      if activeTables == [] { return; }
      if e.tag == CaptionTag {
        var last := |activeTables| - 1;
        activeTables := activeTables[last := activeTables[last].(caption := Some([]), captionOpen := true)];
      } else if e.tag == TrTag {
        StartRow(e.at);
      } else if e.tag == TdTag || e.tag == ThTag {
        StartCell(e);
      }
    }

    method StartRow(at: nat)
      requires activeTables != []
      modifies this
      ensures State() == OpenRow(old(State()), at, source)
    {
      EndRow(at);
      var last := |activeTables| - 1;
      activeTables := activeTables[last := activeTables[last].(row := Some([]))];
    }

    method StartCell(e: Event)
      requires e.StartTag? && activeTables != []
      modifies this
      ensures State() == OpenCell(old(State()), e, source)
    {
      var last := |activeTables| - 1;
      if activeTables[last].row.None? {
        activeTables := activeTables[last := activeTables[last].(row := Some([]))];
      } else {
        assert activeTables[last := activeTables[last].(row := Some(RowCells(activeTables[last].row)))] == activeTables;
      }
      EndCell(e.at);
      var draft := CellDraft(e.at, e.tag == ThTag, Clamp(e.rowSpan), Clamp(e.columnSpan), []);
      activeTables := activeTables[last := activeTables[last].(cell := Some(draft))];
    }

    method HandleEndTag(e: Event)
      requires e.EndTag?
      modifies this
      ensures State() == End(old(State()), e, source)
    {
      var opening := StackIndex(e.tag);
      var kept := if opening.Some? then stack[..opening.value] else stack;
      if !(opening.Some? && stack[opening.value].1) && activeTables != [] {
        if e.tag == TdTag || e.tag == ThTag {
          EndCell(e.at);
        } else if e.tag == TrTag {
          EndRow(e.at);
        } else if e.tag == CaptionTag {
          var last := |activeTables| - 1;
          activeTables := activeTables[last := activeTables[last].(captionOpen := false)];
        } else if e.tag == TableTag {
          EndTable(e.at);
        }
      }
      if opening.Some? { stack := kept; }
    }

    /** The search runs from the top of the stack down. */
    method StackIndex(tag: Tag) returns (r: Option<nat>)
      ensures r == Opening(stack, tag, |stack|)
    {
      var k: nat := |stack|;
      while k > 0
        invariant k <= |stack| && Opening(stack, tag, k) == Opening(stack, tag, |stack|)
      {
        k := k - 1;
        if stack[k].0 == tag { return Some(k); }
      }
      r := None;
    }

    method HandleData(text: string)
      modifies this
      ensures State() == Text(old(State()), text)
    {
      if Hidden(State()) || activeTables == [] { return; }
      var last := |activeTables| - 1;
      var t := activeTables[last];
      if t.cell.Some? {
        var cell := t.cell.value;
        activeTables := activeTables[last := t.(cell := Some(cell.(text := cell.text + [text])))];
      } else if t.captionOpen && t.caption.Some? {
        activeTables := activeTables[last := t.(caption := Some(t.caption.value + [text]))];
      }
    }

    method EndCell(end: nat)
      requires activeTables != []
      modifies this
      ensures State() == CloseCell(old(State()), end, source) && |activeTables| == |old(activeTables)|
    {
      var last := |activeTables| - 1;
      var t := activeTables[last];
      if t.cell.None? {
        assert activeTables[last := t] == activeTables;
        return;
      }
      var draft := t.cell.value;
      activeTables := activeTables[last := t.(cell := None)];
      var (text, cut) := source.bounded(draft.text);
      if cells >= MAX_STRUCTURED_TABLE_CELLS {
        omittedTables, tablesTruncated := omittedTables + 1, true;
        return;
      }
      var cell := Cell(text, draft.header, draft.rowSpan, draft.columnSpan, ReferenceTo(source, draft.start, end));
      activeTables := activeTables[last := t.(cell := None, row := Some(RowCells(t.row) + [cell]))];
      cells, tablesTruncated := cells + 1, tablesTruncated || cut;
    }

    method EndRow(end: nat)
      requires activeTables != []
      modifies this
      ensures State() == CloseRow(old(State()), end, source) && |activeTables| == |old(activeTables)|
    {
      EndCell(end);
      var last := |activeTables| - 1;
      var t := activeTables[last];
      if t.row.None? {
        assert activeTables[last := t] == activeTables;
        return;
      }
      var row := t.row.value;
      if row != [] {
        if |t.rows| < MAX_STRUCTURED_TABLE_ROWS {
          t := t.(rows := t.rows + [row]);
        } else {
          omittedTables, tablesTruncated, cells := omittedTables + |row|, true, cells - |row|;
        }
      }
      activeTables := activeTables[last := t.(row := None)];
    }

    method EndTable(end: nat)
      requires activeTables != []
      modifies this
      ensures State() == FinishTable(old(State()), end, source) && |activeTables| < |old(activeTables)|
    {
      EndRow(end);
      var last := |activeTables| - 1;
      var t := activeTables[last];
      activeTables := activeTables[..last];
      ClosedRowIs(old(State()), end, source);
      var (caption, cut) := source.bounded(if t.caption.None? then [] else t.caption.value);
      if t.rows == [] { return; }
      if |tables| >= MAX_STRUCTURED_TABLES {
        var n := CellsIn(t.rows);
        omittedTables, tablesTruncated, cells := omittedTables + Max(1, n), true, cells - n;
        return;
      }
      tables := tables + [Table(caption, t.rows, ReferenceTo(source, t.start, end))];
      tablesTruncated := tablesTruncated || cut;
    }

    method Finish()
      modifies this
      ensures State() == FinishTables(old(State()), source)
    {
      while activeTables != []
        invariant FinishTables(State(), source) == FinishTables(old(State()), source)
        decreases |activeTables|
      {
        EndTable(source.length);
      }
    }
  }

  /** Closing the last row on the stack, or off it, comes to the same. */
  lemma ClosedRowIs(p: Parser, end: nat, source: Source)
    requires p.drafts != []
    ensures var n := |p.drafts| - 1; var below := p.(drafts := p.drafts[..n]); var q := CloseRow(p, end, source);
            FinishRow(below, p.drafts[n], end, source) == (q.(drafts := q.drafts[..n]), q.drafts[n])
  {
  }
}
