/** Paging through a job's results: one page transaction, the cursor it returns, and whole client sessions. */
module ResultPages {
  import opened Options
  import opened Seqs
  import opened JobTables
  import opened JobProtocol

  // ---------------------------------------------------------------- results as a log

  /** A log holds its rows in delivery order, with ordinals from 1. */
  predicate IsLog(log: seq<ResultRow>) {
    forall i :: 0 <= i < |log| ==> log[i].ordinal == i + 1
  }

  lemma SameSizeSubset<T>(a: set<T>, b: set<T>)
    requires a <= b && |a| == |b|
    ensures a == b
  {
    if x :| x in b && x !in a {
      SubsetSize(a, b - {x});
    }
  }

  /** Every ordinal up to the number of results belongs to a result. */
  lemma OrdinalTaken(results: Results, n: nat)
    requires Dense(results) && 1 <= n <= |results|
    ensures exists k :: k in results && results[k].ordinal == n
  {
    OrdinalCount(results, results.Keys);
    UpToSize(|results|);
    assert |results| == |results.Keys|;
    SameSizeSubset(Ordinals(results, results.Keys), UpTo(|results|));
    assert n in Ordinals(results, results.Keys);
  }

  ghost function RowAt(results: Results, n: nat): (row: ResultRow)
    requires Dense(results) && 1 <= n <= |results|
    ensures row.ordinal == n && exists k :: k in results && results[k] == row
  {
    OrdinalTaken(results, n);
    var k :| k in results && results[k].ordinal == n;
    results[k]
  }

  /** The rows of a job in delivery order. */
  ghost function Log(results: Results): (log: seq<ResultRow>)
    requires Dense(results)
    ensures |log| == |results| && IsLog(log)
  {
    seq(|results|, i requires 0 <= i < |results| => RowAt(results, i + 1))
  }

  /** The log holds exactly the stored rows. */
  lemma LogHoldsAll(results: Results, k: string)
    requires Dense(results) && k in results
    ensures 1 <= results[k].ordinal <= |Log(results)| && Log(results)[results[k].ordinal - 1] == results[k]
  {
    var row := RowAt(results, results[k].ordinal);
    var m :| m in results && results[m] == row;
    assert m == k;
  }

  /** Rows that are kept keep their places: the log only grows at its end. */
  lemma LogGrows(earlier: Results, later: Results)
    requires Dense(earlier) && Dense(later)
    requires forall k :: k in earlier ==> k in later && later[k] == earlier[k]
    ensures Log(earlier) <= Log(later)
  {
    SubsetSize(earlier.Keys, later.Keys);
    assert |earlier| == |earlier.Keys| && |later| == |later.Keys|;
    forall i | 0 <= i < |earlier|
      ensures Log(earlier)[i] == Log(later)[i]
    {
      var row := RowAt(earlier, i + 1);
      var k :| k in earlier && earlier[k] == row;
      LogHoldsAll(later, k);
    }
  }

  // ---------------------------------------------------------------- one page

  datatype Page = Page(results: seq<ResultRow>, last: nat, bytes: nat, hasMore: bool)

  function Bytes(rows: seq<ResultRow>, k: nat): nat
    requires k <= |rows|
  {
    if k == 0 then 0 else Bytes(rows, k - 1) + rows[k - 1].bytes
  }

  /** How many rows fit on a page: as many as both limits allow. */
  ghost predicate PageSize(rows: seq<ResultRow>, maxItems: nat, maxBytes: nat, k: nat) {
    && k <= |rows| && k <= maxItems && Bytes(rows, k) <= maxBytes
    && (k < |rows| ==> k == maxItems || Bytes(rows, k + 1) > maxBytes)
  }

  method BuildResultPage(rows: seq<ResultRow>, after: nat, maxItems: nat, maxBytes: nat)
    returns (page: Page, oversized: Option<nat>)
    ensures PageSize(rows, maxItems, maxBytes, |page.results|)
    ensures var k := |page.results|;
            && page.results == rows[..k]
            && page.bytes == Bytes(rows, k)
            && page.last == (if k == 0 then after else rows[k - 1].ordinal)
            && oversized == (if k == 0 && rows != [] && maxItems > 0 then Some(rows[0].bytes) else None)
            && page.hasMore == (k < |rows| && (k > 0 || maxItems == 0))
  {
    var results: seq<ResultRow> := [];
    var used: nat, last := 0, after;
    var hasMore := false;
    oversized := None;
    for i := 0 to |rows|
      invariant results == rows[..i] && used == Bytes(rows, i) && used <= maxBytes && i <= maxItems
      invariant last == if i == 0 then after else rows[i - 1].ordinal
      invariant !hasMore && oversized == None
    {
      if |results| >= maxItems {
        hasMore := true;
        return Page(results, last, used, hasMore), oversized;
      }
      var itemBytes := rows[i].bytes;
      if used + itemBytes > maxBytes {
        assert Bytes(rows, i + 1) == used + itemBytes;
        if results == [] {
          oversized := Some(itemBytes);
        } else {
          hasMore := true;
        }
        return Page(results, last, used, hasMore), oversized;
      }
      TakeStep(rows, i);
      results := results + [rows[i]];
      used := used + itemBytes;
      last := rows[i].ordinal;
    }
    Units(rows);
    page := Page(results, last, used, hasMore);
  }

  // ---------------------------------------------------------------- one request

  datatype Limits = Limits(maxItems: nat, maxBytes: nat)

  /** A client's request is refused, or answered with a page, a next cursor and a completion mark. */
  datatype Response =
    | InvalidCursor
    | ResultTooLarge(bytes: nat)
    | Delivered(page: Page, next: Option<nat>, complete: bool)

  /** The rows a request reads: those after the cursor, one more than a page holds. */
  function Selected(log: seq<ResultRow>, after: nat, maxItems: nat): seq<ResultRow> {
    if after >= |log| then []
    else if after + maxItems + 1 >= |log| then log[after..] else log[after..after + maxItems + 1]
  }

  /** A cursor is the ordinal it encodes; the first request has none. */
  function After(cursor: Option<nat>): nat {
    if cursor.Some? then cursor.value else 0
  }

  method Results(log: seq<ResultRow>, terminal: bool, cursor: Option<nat>, lim: Limits) returns (r: Response)
    requires IsLog(log) && lim.maxItems >= 1 && lim.maxBytes >= 1
    ensures Answers(log, terminal, cursor, lim, r)
  {
    var after := After(cursor);
    var rows := Selected(log, after, lim.maxItems);
    var page, oversized := BuildResultPage(rows, after, lim.maxItems, lim.maxBytes);
    PageOfLog(log, after, lim, |page.results|);
    if oversized.Some? {
      return ResultTooLarge(oversized.value);
    }
    if after > |log| {
      return InvalidCursor;
    }
    var complete := terminal && !page.hasMore && page.last >= |log|;
    var next: Option<nat> := None;
    if page.results != [] && (page.hasMore || !complete) {
      next := Some(page.last);
    } else if page.results == [] && !complete {
      next := cursor;
    }
    return Delivered(page, next, complete);
  }

  /** What a request may be answered, in terms of the log alone. */
  ghost predicate Answers(log: seq<ResultRow>, terminal: bool, cursor: Option<nat>, lim: Limits, r: Response) {
    var after := After(cursor);
    match r
    case InvalidCursor => after > |log|
    case ResultTooLarge(bytes) => after < |log| && bytes == log[after].bytes > lim.maxBytes
    case Delivered(page, next, complete) =>
      && after <= |log|
      && after + |page.results| <= |log|
      && page.results == log[after..after + |page.results|]
      && page.last == after + |page.results|
      && |page.results| <= lim.maxItems
      && page.bytes == Bytes(page.results, |page.results|) <= lim.maxBytes
      && (after < |log| ==> page.results != [])
      && (page.last < |log| ==> |page.results| == lim.maxItems || page.bytes + log[page.last].bytes > lim.maxBytes)
      && (complete <==> terminal && page.last == |log|)
      && next == (if complete then None else if page.results != [] then Some(page.last) else cursor)
  }

  lemma {:induction false} BytesPrefix(a: seq<ResultRow>, b: seq<ResultRow>, k: nat)
    requires k <= |a| && k <= |b| && a[..k] == b[..k]
    ensures Bytes(a, k) == Bytes(b, k)
  {
    if k > 0 {
      assert a[..k][k - 1] == b[..k][k - 1];
      assert a[..k - 1] == a[..k][..k - 1] && b[..k - 1] == b[..k][..k - 1];
      BytesPrefix(a, b, k - 1);
    }
  }

  /** The page cut from the selected rows, read as a stretch of the log. */
  lemma PageOfLog(log: seq<ResultRow>, after: nat, lim: Limits, k: nat)
    requires IsLog(log) && lim.maxItems >= 1
    requires PageSize(Selected(log, after, lim.maxItems), lim.maxItems, lim.maxBytes, k)
    ensures var rows := Selected(log, after, lim.maxItems);
            && (after <= |log| ==>
                  && after + k <= |log| && rows[..k] == log[after..after + k]
                  && (k > 0 ==> rows[k - 1].ordinal == after + k)
                  && (k < |rows| <==> after + k < |log|)
                  && (k < |rows| ==> rows[k] == log[after + k])
                  && Bytes(rows, k) == Bytes(rows[..k], k)
                  && (k < |rows| ==> Bytes(rows, k + 1) == Bytes(rows, k) + log[after + k].bytes))
  {
    var rows := Selected(log, after, lim.maxItems);
    assert forall i :: 0 <= i < |rows| ==> rows[i] == log[after + i];
    assert rows[..k][..k] == rows[..k];
    BytesPrefix(rows, rows[..k], k);
  }

  // ---------------------------------------------------------------- whole sessions

  /** One poll of a client: the log and state it met, its limits, and the answer. */
  datatype Poll = Poll(log: seq<ResultRow>, terminal: bool, lim: Limits, response: Response)

  ghost predicate Answered(p: Poll, cursor: Option<nat>) {
    && IsLog(p.log) && p.lim.maxItems >= 1 && p.lim.maxBytes >= 1
    && Answers(p.log, p.terminal, cursor, p.lim, p.response)
  }

  /** The cursor after k polls; a refused request leaves it as it was. */
  function CursorAfter(polls: seq<Poll>, k: nat): Option<nat>
    requires k <= |polls|
  {
    if k == 0 then None
    else
      var r := polls[k - 1].response;
      if r.Delivered? && r.next.Some? then r.next else CursorAfter(polls, k - 1)
  }

  /** Everything delivered in the first k polls, in order. */
  function DeliveredBy(polls: seq<Poll>, k: nat): seq<ResultRow>
    requires k <= |polls|
  {
    if k == 0 then []
    else
      var r := polls[k - 1].response;
      DeliveredBy(polls, k - 1) + (if r.Delivered? then r.page.results else [])
  }

  /** A client follows its cursor over a growing log and stops when told that it is complete. */
  ghost predicate Session(polls: seq<Poll>) {
    && (forall i :: 0 <= i < |polls| ==> Answered(polls[i], CursorAfter(polls, i)))
    && (forall i :: 0 < i < |polls| ==> polls[i - 1].log <= polls[i].log)
    && (forall i :: 0 <= i < |polls| - 1 ==> !(polls[i].response.Delivered? && polls[i].response.complete))
  }

  /** The place in the log that the client has reached after k polls. */
  function Reached(polls: seq<Poll>, k: nat): nat
    requires k <= |polls|
  {
    if k == 0 then 0
    else
      var r := polls[k - 1].response;
      if r.Delivered? then r.page.last else Reached(polls, k - 1)
  }

  /** One poll from a place in the log delivers the stretch up to the next place. */
  lemma PollDelivers(p: Poll, cursor: Option<nat>, got: seq<ResultRow>)
    requires Answered(p, cursor) && After(cursor) <= |p.log| && got == p.log[..After(cursor)]
    ensures !p.response.InvalidCursor?
    ensures p.response.Delivered? ==>
              && p.response.page.last <= |p.log|
              && got + p.response.page.results == p.log[..p.response.page.last]
              && (p.response.next.Some? ==> p.response.next.value == p.response.page.last)
              && (p.response.next.None? && !p.response.complete ==> cursor.None? && p.response.page.last == 0)
  {
  }

  /** After any number of polls the client holds exactly the log up to its place, each row once, in order. */
  lemma {:induction false} SessionDelivers(polls: seq<Poll>, k: nat)
    requires Session(polls) && k <= |polls|
    ensures k < |polls| ==> After(CursorAfter(polls, k)) == Reached(polls, k) <= |polls[k].log|
    ensures k < |polls| ==> DeliveredBy(polls, k) == polls[k].log[..Reached(polls, k)]
    ensures k > 0 ==> Reached(polls, k) <= |polls[k - 1].log|
    ensures k > 0 ==> DeliveredBy(polls, k) == polls[k - 1].log[..Reached(polls, k)]
  {
    if k > 0 {
      SessionDelivers(polls, k - 1);
      var p, cursor, got := polls[k - 1], CursorAfter(polls, k - 1), DeliveredBy(polls, k - 1);
      assert Answered(p, cursor);
      PollDelivers(p, cursor, got);
      Units(got);
      if k < |polls| {
        assert p.log <= polls[k].log;
        PrefixSlice(p.log, polls[k].log, Reached(polls, k));
        assert !(p.response.Delivered? && p.response.complete);
      }
    }
  }

  lemma PrefixSlice<T>(a: seq<T>, b: seq<T>, n: nat)
    requires a <= b && n <= |a|
    ensures b[..n] == a[..n]
  {
  }

  /** A client that is told the results are complete holds every result of an ended job, each once, in order. */
  lemma {:induction false} CompleteMeansAll(polls: seq<Poll>)
    requires Session(polls) && polls != []
    requires var r := polls[|polls| - 1].response; r.Delivered? && r.complete
    ensures var p := polls[|polls| - 1]; p.terminal && DeliveredBy(polls, |polls|) == p.log
  {
    SessionDelivers(polls, |polls|);
    var p := polls[|polls| - 1];
    assert Answered(p, CursorAfter(polls, |polls| - 1));
    Units(p.log);
  }

  /** A client never meets an invalid cursor, and with limits above every item it is always served the next row. */
  lemma {:induction false} EveryPollProgresses(polls: seq<Poll>, k: nat, itemCap: nat)
    requires Session(polls) && k < |polls|
    requires forall i :: 0 <= i < |polls[k].log| ==> polls[k].log[i].bytes <= itemCap
    requires polls[k].lim.maxBytes >= itemCap
    ensures polls[k].response.Delivered?
    ensures Reached(polls, k) < |polls[k].log| ==> Reached(polls, k + 1) > Reached(polls, k)
    ensures Reached(polls, k) == |polls[k].log| && polls[k].terminal ==> polls[k].response.complete
  {
    SessionDelivers(polls, k);
    assert Answered(polls[k], CursorAfter(polls, k));
  }
}
