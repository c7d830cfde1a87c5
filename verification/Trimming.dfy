/**
 * Trimming a fetch response to its byte budget: items go one by one from the largest structured extraction until the
 * result fits or nothing can be trimmed. What goes is counted, and what stays is what came first.
 */
module Trimming {
  import opened Options
  import opened StructuredTables

  const ENVELOPE_RESERVE_BYTES := 65536

  datatype Extraction = Extraction(
    jsonSchema: bool,
    links: seq<string>,
    tables: seq<Table>,
    documents: seq<string>,
    hasData: bool,
    fields: seq<string>,
    omitted: nat,
    truncated: bool,
    budgetExceeded: bool)

  /** Something is left that can be trimmed. */
  predicate Trimmable(e: Extraction) {
    e.links != [] || e.tables != [] || e.documents != [] || (e.jsonSchema && (e.hasData || e.fields != []))
  }

  function DropLast<T>(s: seq<T>): seq<T>
    requires s != []
  {
    s[..|s| - 1]
  }

  function Last<T>(s: seq<T>): T
    requires s != []
  {
    s[|s| - 1]
  }

  /** The last link goes first, then the last row of the last table, then the last document, then all extracted data. */
  function Trim(e: Extraction): Option<Extraction> {
    if e.links != [] then Some(e.(links := DropLast(e.links), omitted := e.omitted + 1, truncated := true))
    else if e.tables != [] then Some(TrimTable(e))
    else if e.documents != [] then
      Some(e.(documents := DropLast(e.documents), omitted := e.omitted + 1, truncated := true))
    else if e.jsonSchema && (e.hasData || e.fields != []) then
      Some(Extraction(true, [], [], [], false, [], Max(1, |e.fields|), false, true))
    else None
  }

  function TrimTable(e: Extraction): Extraction
    requires e.tables != []
  {
    var t := Last(e.tables);
    if |t.rows| > 1 then
      e.(tables := DropLast(e.tables) + [t.(rows := DropLast(t.rows))],
         omitted := e.omitted + Max(1, |Last(t.rows)|), truncated := true)
    else e.(tables := DropLast(e.tables), omitted := e.omitted + Max(1, CellsIn(t.rows)), truncated := true)
  }

  lemma TrimsIfTrimmable(e: Extraction)
    ensures Trim(e).Some? <==> Trimmable(e)
  {
  }

  // ---------------------------------------------------------------- the loop

  /** The largest extraction that can be trimmed, the last of them on a tie. */
  function Largest(s: seq<Extraction>, size: Extraction -> nat, k: nat): (r: Option<nat>)
    requires k <= |s|
    ensures r.Some? ==> r.value < k && Trimmable(s[r.value])
    ensures forall i :: 0 <= i < k && Trimmable(s[i]) ==> r.Some? && size(s[i]) <= size(s[r.value])
  {
    if k == 0 then None
    else
      var best := Largest(s, size, k - 1);
      if Trimmable(s[k - 1]) && (best.None? || size(s[best.value]) <= size(s[k - 1])) then Some(k - 1) else best
  }

  /** How many trims an extraction can still take. */
  function Room(e: Extraction): nat {
    |e.links| + RowsLeft(e.tables) + |e.documents| + if e.jsonSchema && (e.hasData || e.fields != []) then 1 else 0
  }

  function RowsLeft(tables: seq<Table>): nat {
    if tables == [] then 0 else RowsLeft(DropLast(tables)) + Max(1, |Last(tables).rows|)
  }

  function RoomIn(s: seq<Extraction>, k: nat): nat
    requires k <= |s|
  {
    if k == 0 then 0 else RoomIn(s, k - 1) + Room(s[k - 1])
  }

  lemma {:induction false} RowsLeftSnoc(tables: seq<Table>, t: Table)
    ensures RowsLeft(tables + [t]) == RowsLeft(tables) + Max(1, |t.rows|)
  {
    assert DropLast(tables + [t]) == tables;
  }

  lemma TrimTakesRoom(e: Extraction)
    requires Trimmable(e)
    ensures Trim(e).Some? && Room(Trim(e).value) < Room(e)
  {
    if e.links == [] && e.tables != [] {
      var t := Last(e.tables);
      if |t.rows| > 1 { RowsLeftSnoc(DropLast(e.tables), t.(rows := DropLast(t.rows))); }
    }
  }

  lemma {:induction false} RoomOfOne(s: seq<Extraction>, i: nat, e: Extraction, k: nat)
    requires i < |s| && k <= |s|
    ensures RoomIn(s[i := e], k) == RoomIn(s, k) + if i < k then Room(e) - Room(s[i]) else 0
  {
    if k > 0 { RoomOfOne(s, i, e, k - 1); }
  }

  function Next(s: seq<Extraction>, i: nat): seq<Extraction>
    requires i < |s| && Trimmable(s[i])
  {
    TrimsIfTrimmable(s[i]);
    s[i := Trim(s[i]).value]
  }

  lemma {:induction false} NextTakesRoom(s: seq<Extraction>, i: nat)
    requires i < |s| && Trimmable(s[i])
    ensures RoomIn(Next(s, i), |s|) < RoomIn(s, |s|)
  {
    TrimTakesRoom(s[i]);
    RoomOfOne(s, i, Trim(s[i]).value, |s|);
  }

  /** The result as a whole has a size that depends on its extractions; one of them has a size of its own. */
  datatype Measure = Measure(total: seq<Extraction> -> nat, size: Extraction -> nat)

  function Bound(s: seq<Extraction>, m: Measure, limit: int): (r: seq<Extraction>)
    ensures |r| == |s|
    decreases RoomIn(s, |s|)
  {
    var largest := Largest(s, m.size, |s|);
    if m.total(s) <= limit || largest.None? then s
    else
      NextTakesRoom(s, largest.value);
      Bound(Next(s, largest.value), m, limit)
  }

  /** The last of the largest extractions that can be trimmed. */
  method FindLargest(r: seq<Extraction>, m: Measure) returns (largest: Option<nat>)
    ensures largest == Largest(r, m.size, |r|)
  {
    largest := None;
    for k := 0 to |r|
      invariant largest == Largest(r, m.size, k)
    {
      if Trimmable(r[k]) && (largest.None? || m.size(r[largest.value]) <= m.size(r[k])) { largest := Some(k); }
    }
  }

  method BoundFetchResult(structured: seq<Extraction>, m: Measure, limit: int) returns (r: seq<Extraction>)
    ensures r == Bound(structured, m, limit)
  {
    r := structured;
    while m.total(r) > limit
      invariant |r| == |structured| && Bound(r, m, limit) == Bound(structured, m, limit)
      decreases RoomIn(r, |r|)
    {
      var largest := FindLargest(r, m);
      if largest.None? { return; }
      NextTakesRoom(r, largest.value);
      TrimsIfTrimmable(r[largest.value]);
      r := r[largest.value := Trim(r[largest.value]).value];
    }
  }

  /** The budget is shared evenly between the results of a response. */
  method BoundFetchResults(results: seq<seq<Extraction>>, ms: seq<Measure>, maxResponseBytes: int)
    returns (r: seq<seq<Extraction>>)
    requires |ms| == |results|
    ensures |r| == |results|
    ensures var available := maxResponseBytes - ENVELOPE_RESERVE_BYTES;
            if results == [] || available <= 0 then r == results
            else forall i :: 0 <= i < |r| ==> r[i] == Bound(results[i], ms[i], available / |results|)
  {
    r := results;
    var available := maxResponseBytes - ENVELOPE_RESERVE_BYTES;
    if results == [] || available <= 0 { return; }
    var budget := available / |results|;
    for i := 0 to |results|
      invariant |r| == |results| && r[i..] == results[i..]
      invariant forall j :: 0 <= j < i ==> r[j] == Bound(results[j], ms[j], budget)
    {
      assert r[i] == r[i..][0] == results[i];
      var bounded := BoundFetchResult(results[i], ms[i], budget);
      assert r[i := bounded][i + 1..] == r[i..][1..] == results[i..][1..] == results[i + 1..];
      r := r[i := bounded];
    }
  }

  // ---------------------------------------------------------------- one item at a time

  /** b is a with one item less: the last link, else the last row of the last table or that table, else a document. */
  predicate OneLess(a: Extraction, b: Extraction) {
    if a.links != [] then b == a.(links := a.links[..|a.links| - 1], omitted := a.omitted + 1, truncated := true)
    else if a.tables != [] then
      var t := a.tables[|a.tables| - 1];
      var front := a.tables[..|a.tables| - 1];
      if |t.rows| > 1 then
        var last := t.rows[|t.rows| - 1];
        b == a.(tables := front + [t.(rows := t.rows[..|t.rows| - 1])], truncated := true,
                omitted := a.omitted + if last == [] then 1 else |last|)
      else
        b == a.(tables := front, truncated := true,
                omitted := a.omitted + if CellsIn(t.rows) == 0 then 1 else CellsIn(t.rows))
    else if a.documents != [] then
      b == a.(documents := a.documents[..|a.documents| - 1], omitted := a.omitted + 1, truncated := true)
    else
      && a.jsonSchema && (a.hasData || a.fields != [])
      && b == Extraction(true, [], [], [], false, [], if a.fields == [] then 1 else |a.fields|, false, true)
  }

  predicate HasItems(e: Extraction) {
    e.links != [] || e.tables != [] || e.documents != [] || (e.jsonSchema && (e.hasData || e.fields != []))
  }

  /** The last of the largest extractions with items loses one. */
  predicate LosesOne(s: seq<Extraction>, t: seq<Extraction>, m: Measure, i: nat) {
    && i < |s| == |t| && HasItems(s[i])
    && (forall j :: 0 <= j < |s| && HasItems(s[j]) ==> m.size(s[j]) <= m.size(s[i]))
    && (forall j :: i < j < |s| && HasItems(s[j]) ==> m.size(s[j]) < m.size(s[i]))
    && t == s[i := t[i]] && OneLess(s[i], t[i])
  }

  ghost predicate SomeLosesOne(s: seq<Extraction>, t: seq<Extraction>, m: Measure) {
    exists i: nat :: LosesOne(s, t, m, i)
  }

  ghost predicate TrimStep(run: seq<seq<Extraction>>, m: Measure, limit: int, k: nat)
    requires k + 1 < |run|
  {
    m.total(run[k]) > limit && SomeLosesOne(run[k], run[k + 1], m)
  }

  /** Only a result over the limit is trimmed, one item at a time; the end fits, or has nothing left to trim. */
  ghost predicate TrimRun(run: seq<seq<Extraction>>, m: Measure, limit: int) {
    && run != []
    && (forall k :: 0 <= k < |run| - 1 ==> TrimStep(run, m, limit, k))
    && var end := run[|run| - 1];
       m.total(end) <= limit || forall i :: 0 <= i < |end| ==> !HasItems(end[i])
  }

  lemma TrimIsOneLess(e: Extraction)
    requires Trimmable(e)
    ensures Trim(e).Some? && OneLess(e, Trim(e).value)
  {
  }

  lemma {:induction false} LargestIsLast(s: seq<Extraction>, size: Extraction -> nat, k: nat, i: nat)
    requires k <= |s| && Largest(s, size, k) == Some(i)
    ensures forall j :: i < j < k && Trimmable(s[j]) ==> size(s[j]) < size(s[i])
  {
    if i < k - 1 { LargestIsLast(s, size, k - 1, i); }
  }

  /** Bounding a result trims it by such a run, and so no more than it takes. */
  lemma {:induction false} BoundIsTrimRun(s: seq<Extraction>, m: Measure, limit: int)
    returns (run: seq<seq<Extraction>>)
    ensures TrimRun(run, m, limit) && run[0] == s && run[|run| - 1] == Bound(s, m, limit)
    decreases RoomIn(s, |s|)
  {
    var largest := Largest(s, m.size, |s|);
    if m.total(s) <= limit || largest.None? {
      run := [s];
    } else {
      var i := largest.value;
      TrimIsOneLess(s[i]);
      LargestIsLast(s, m.size, |s|, i);
      NextTakesRoom(s, i);
      assert LosesOne(s, Next(s, i), m, i);
      var rest := BoundIsTrimRun(Next(s, i), m, limit);
      run := [s] + rest;
      RunLonger(s, rest, m, limit);
    }
  }

  lemma RunLonger(s: seq<Extraction>, rest: seq<seq<Extraction>>, m: Measure, limit: int)
    requires TrimRun(rest, m, limit) && m.total(s) > limit && SomeLosesOne(s, rest[0], m)
    ensures TrimRun([s] + rest, m, limit)
  {
    var run := [s] + rest;
    forall k | 0 <= k < |run| - 1
      ensures TrimStep(run, m, limit, k)
    {
      if k > 0 {
        assert TrimStep(rest, m, limit, k - 1);
        assert run[k] == rest[k - 1] && run[k + 1] == rest[k];
      }
    }
  }

  // ---------------------------------------------------------------- what trimming keeps

  /** What an extraction holds, counted as trimming counts it. */
  function TableWeight(rows: seq<Row>): nat {
    if |rows| <= 1 then Max(1, CellsIn(rows)) else TableWeight(DropLast(rows)) + Max(1, |Last(rows)|)
  }

  function TablesWeight(tables: seq<Table>): nat {
    if tables == [] then 0 else TablesWeight(DropLast(tables)) + TableWeight(Last(tables).rows)
  }

  function Weight(e: Extraction): nat {
    |e.links| + TablesWeight(e.tables) + |e.documents|
  }

  /** b's tables are the first of a's, each cut after some row but not emptied. */
  ghost predicate TablesCut(a: seq<Table>, b: seq<Table>) {
    && |b| <= |a|
    && forall t :: 0 <= t < |b| ==> TableCut(a[t], b[t])
  }

  predicate TableCut(a: Table, b: Table) {
    b.rows <= a.rows && b.(rows := a.rows) == a && (a.rows != [] ==> b.rows != [])
  }

  /** What b may be when trimmed from a: prefixes, links before tables before documents, and nothing uncounted. */
  ghost predicate TrimmedTo(a: Extraction, b: Extraction) {
    if b.budgetExceeded && !a.budgetExceeded then
      && a.jsonSchema && b.links == [] && b.tables == [] && b.documents == [] && !b.hasData && b.fields == []
      && b.omitted == Max(1, |a.fields|)
    else
      && b.jsonSchema == a.jsonSchema && b.hasData == a.hasData && b.fields == a.fields
      && b.budgetExceeded == a.budgetExceeded
      && b.links <= a.links && TablesCut(a.tables, b.tables) && b.documents <= a.documents
      && (b.links != [] ==> b.tables == a.tables)
      && (b.links != [] || b.tables != [] ==> b.documents == a.documents)
      && b.omitted + Weight(b) == a.omitted + Weight(a)
      && (b != a ==> b.truncated)
  }

  lemma {:induction false} TablesWeightSnoc(tables: seq<Table>, t: Table)
    ensures TablesWeight(tables + [t]) == TablesWeight(tables) + TableWeight(t.rows)
  {
    assert DropLast(tables + [t]) == tables;
  }

  /** An extraction that has been replaced has nothing left to trim. */
  predicate WellFormed(e: Extraction) {
    e.budgetExceeded ==> !Trimmable(e)
  }

  lemma TrimIsTrimmed(e: Extraction)
    requires Trimmable(e) && WellFormed(e)
    ensures Trim(e).Some? && TrimmedTo(e, Trim(e).value) && WellFormed(Trim(e).value)
  {
    if e.links == [] && e.tables != [] {
      var t := Last(e.tables);
      assert e.tables == DropLast(e.tables) + [t];
      if |t.rows| > 1 { TablesWeightSnoc(DropLast(e.tables), t.(rows := DropLast(t.rows))); }
    }
  }

  lemma TrimmedTransitive(a: Extraction, b: Extraction, c: Extraction)
    requires TrimmedTo(a, b) && TrimmedTo(b, c)
    ensures TrimmedTo(a, c)
  {
  }

  ghost predicate AllTrimmed(s: seq<Extraction>, r: seq<Extraction>) {
    |r| == |s| && forall i :: 0 <= i < |s| ==> TrimmedTo(s[i], r[i]) && WellFormed(r[i])
  }

  /** The loop stops when the result fits, or when nothing in it can be trimmed; until then only the above happens. */
  lemma {:induction false} BoundKeeps(s: seq<Extraction>, m: Measure, limit: int)
    requires forall i :: 0 <= i < |s| ==> WellFormed(s[i])
    ensures var r := Bound(s, m, limit);
            && AllTrimmed(s, r)
            && (m.total(r) <= limit || forall i :: 0 <= i < |r| ==> !Trimmable(r[i]))
            && (m.total(s) <= limit ==> r == s)
    decreases RoomIn(s, |s|)
  {
    var largest := Largest(s, m.size, |s|);
    if m.total(s) > limit && largest.Some? {
      var i := largest.value;
      NextTakesRoom(s, i);
      TrimIsTrimmed(s[i]);
      BoundKeeps(Next(s, i), m, limit);
      var r := Bound(s, m, limit);
      forall j | 0 <= j < |s|
        ensures TrimmedTo(s[j], r[j])
      {
        TrimmedTransitive(s[j], Next(s, i)[j], r[j]);
      }
    }
  }

  // ---------------------------------------------------------------- from tags to the trimmed response

  lemma {:induction false} WeightIsCells(rows: seq<Row>)
    requires rows != [] && forall i :: 0 <= i < |rows| ==> rows[i] != []
    ensures TableWeight(rows) == CellsIn(rows)
  {
    if |rows| > 1 { WeightIsCells(DropLast(rows)); }
  }

  lemma {:induction false} TablesWeightIsCells(tables: seq<Table>)
    requires forall t :: 0 <= t < |tables| ==> RowsOk(tables[t].rows) && tables[t].rows != []
    ensures TablesWeight(tables) == TablesCells(tables)
  {
    if tables != [] {
      TablesWeightIsCells(DropLast(tables));
      WeightIsCells(Last(tables).rows);
    }
  }

  /** From the tags of a page to the trimmed response: cells shown and items reported omitted are the cells begun. */
  lemma {:induction false} CellsSurviveTrimming(start: Parser, events: seq<Event>, source: Source, e: Extraction,
                                                r: Extraction)
    requires Fresh(start)
    requires var p := FinishTables(Feed(start, events, source, |events|), source);
             e.tables == p.tables && e.omitted == p.omitted
    requires e.links == [] && e.documents == [] && !e.jsonSchema && TrimmedTo(e, r)
    ensures TablesCells(r.tables) + r.omitted == Begun(start, events, source, |events|)
  {
    EveryCellAccounted(start, events, source);
    TablesWeightIsCells(e.tables);
    forall t | 0 <= t < |r.tables|
      ensures RowsOk(r.tables[t].rows) && r.tables[t].rows != []
    {
      assert TableCut(e.tables[t], r.tables[t]);
    }
    TablesWeightIsCells(r.tables);
  }
}
