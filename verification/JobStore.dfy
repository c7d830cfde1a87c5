/** The store of crawl jobs, statement by statement, proved against the table functions. */
module JobStore {
  import opened Options
  import opened JobTables

  datatype Appended = Stored | Known | TooLarge(bytes: nat) | NoJob

  /** UPDATE of running jobs whose cancellation was requested. */
  function CancelMarked(job: Job, now: Time, c: Config): Job {
    if job.state == Running && job.cancelRequested then
      job.(state := Cancelled, terminalAt := Some(now), retentionDeadline := Some(now + c.retention),
           cancelRequested := false, outcome := Some(CancelledOutcome))
    else job
  }

  /** UPDATE of running jobs without attempts left. */
  function FailExhausted(job: Job, now: Time, c: Config): Job {
    if job.state == Running && job.attempts >= c.maxAttempts then
      job.(state := Failed, terminalAt := Some(now), retentionDeadline := Some(now + c.retention),
           outcome := Some(LocalProcessingFailure), summaries := [RestartRetryExhausted])
    else job
  }

  /** UPDATE of running jobs with attempts left. */
  function Requeue(job: Job, c: Config): Job {
    if job.state == Running && job.attempts < c.maxAttempts then job.(state := Queued) else job
  }

  /** The three updates, in this order, are one decision per job. */
  lemma RecoveryInThree(job: Job, now: Time, c: Config)
    ensures Requeue(FailExhausted(CancelMarked(job, now, c), now, c), c) == RecoveredJob(job, now, c)
  {
  }

  lemma RecoveredAs(before: Db, db: Db, now: Time, c: Config)
    requires db.Keys == before.Keys
    requires forall j :: j in before ==>
               db[j] == before[j].(job := Requeue(FailExhausted(CancelMarked(before[j].job, now, c), now, c), c))
    ensures db == Recover(before, now, c)
  {
    forall j | j in before
      ensures db[j] == before[j].(job := RecoveredJob(before[j].job, now, c))
    {
      RecoveryInThree(before[j].job, now, c);
    }
  }

  /** The jobs in `done` are as expiry leaves them; every other job is untouched. */
  ghost predicate PartlyExpired(before: Db, db: Db, done: set<JobId>, now: Time, c: Config) {
    && db.Keys == before.Keys
    && forall j :: j in before ==> db[j] == if j in done then AfterExpiry(before[j], now, c) else before[j]
  }

  lemma ExpireOne(before: Db, db: Db, done: set<JobId>, j: JobId, e: Entry, now: Time, c: Config)
    requires PartlyExpired(before, db, done, now, c) && j in before && e == AfterExpiry(before[j], now, c)
    ensures PartlyExpired(before, db[j := e], done + {j}, now, c)
  {
  }

  lemma AllExpired(before: Db, db: Db, due: set<JobId>, now: Time, c: Config)
    requires PartlyExpired(before, db, due, now, c)
    requires forall j :: j in before && Due(before[j].job, now) ==> j in due
    ensures (map j | j in db && !Purgeable(db[j].job, now) :: db[j]) == ExpireDue(before, now, c)
  {
  }

  class CrawlJobStore {
    var db: Db
    const c: Config

    constructor (c: Config)
      ensures db == map[] && this.c == c
    {
      db := map[];
      this.c := c;
    }

    /** A due job loses its rows, its key and its mark, and gets the deadline of its tombstone. */
    method ExpireJob(j: JobId)
      requires j in db && db[j].job.retentionDeadline.Some?
      modifies this
      ensures db == old(db)[j := Entry(Tombstone(old(db)[j].job, c), map[], map[])]
    {
      var deadline := db[j].job.retentionDeadline.value;
      db := db[j := Entry(db[j].job, map[], map[])];
      var expired := db[j].job.(state := Expired, idempotency := None, cancelRequested := false,
                                purgeAfter := Some(deadline + c.tombstone));
      db := db[j := Entry(expired, map[], map[])];
    }

    /** Ended jobs past their deadline lose their rows; tombstones past theirs are deleted. */
    method ExpireDueJobs(now: Time)
      modifies this
      ensures db == ExpireDue(old(db), now, c)
    {
      ghost var before := db;
      var due := set j | j in db && Due(db[j].job, now);
      var left := due;
      while left != {}
        invariant left <= due
        invariant PartlyExpired(before, db, due - left, now, c)
        decreases left
      {
        var j :| j in left;
        ghost var was := db;
        ExpireJob(j);
        ExpireOne(before, was, due - left, j, db[j], now, c);
        assert due - (left - {j}) == due - left + {j};
        left := left - {j};
      }
      AllExpired(before, db, due, now, c);
      db := map j | j in db && !Purgeable(db[j].job, now) :: db[j];
    }

    method Claim(id: JobId, s: Submission, now: Time) returns (r: ClaimResult)
      requires id !in db
      modifies this
      ensures Claims(old(db), db, id, s, now, c, r)
    {
      ExpireDueJobs(now);
      var existing := set j | j in db && SameKey(db[j].job, s);
      if existing != {} {
        var row :| row in existing;
        if db[row].job.fingerprint != s.fingerprint {
          return Conflict;
        }
        return Replayed(row);
      }
      assert forall j :: j in db && SameKey(db[j].job, s) ==> j in existing;
      if |db| >= c.maxRecords {
        return QueueFull;
      }
      db := db[id := Entry(NewJob(s, now), map[], map[])];
      return Created(id);
    }

    /** The first queued job by creation time, then identifier. */
    method FirstInQueue() returns (r: Option<JobId>)
      ensures r.None? ==> forall j :: j in db ==> !IsQueued(db, j)
      ensures r.Some? ==> FirstQueued(db, r.value)
    {
      var queued := set j | j in db && IsQueued(db, j);
      if queued == {} {
        assert forall j :: j in db && IsQueued(db, j) ==> j in queued;
        return None;
      }
      var first :| first in queued;
      var left := queued - {first};
      while left != {}
        invariant first in queued && left <= queued
        invariant forall j :: j in queued && j !in left ==> Before(db, first, j)
        decreases left
      {
        var j :| j in left;
        if !Before(db, first, j) {
          first := j;
        }
        left := left - {j};
      }
      assert forall j :: IsQueued(db, j) ==> j in queued;
      return Some(first);
    }

    /** The first queued job starts running. */
    method ClaimNext(now: Time) returns (r: Option<JobId>)
      modifies this
      ensures ClaimsNext(old(db), db, now, c, r)
    {
      ExpireDueJobs(now);
      r := FirstInQueue();
      if r.None? {
        return;
      }
      var job := db[r.value].job;
      db := db[r.value := db[r.value].(job := job.(
        state := Running,
        startedAt := if job.startedAt.Some? then job.startedAt else Some(now),
        attempts := job.attempts + 1))];
    }

    /** Three updates in sequence: cancelled as requested, failed when exhausted, otherwise queued again. */
    method RecoverInterrupted(now: Time)
      modifies this
      ensures db == Recover(old(db), now, c)
    {
      ghost var before := db;
      db := map j | j in db :: db[j].(job := CancelMarked(db[j].job, now, c));
      assert forall j :: j in db ==> db[j] == before[j].(job := CancelMarked(before[j].job, now, c));
      db := map j | j in db :: db[j].(job := FailExhausted(db[j].job, now, c));
      assert forall j :: j in db ==>
               db[j] == before[j].(job := FailExhausted(CancelMarked(before[j].job, now, c), now, c));
      db := map j | j in db :: db[j].(job := Requeue(db[j].job, c));
      RecoveredAs(before, db, now, c);
    }

    method IncrementAttempt(j: JobId) returns (found: bool)
      modifies this
      ensures found == (j in old(db))
      ensures db == if found then WithJob(old(db), j, NextAttempt(old(db)[j].job)) else old(db)
    {
      if j !in db {
        return false;
      }
      if db[j].job.state == Running {
        db := db[j := db[j].(job := db[j].job.(attempts := db[j].job.attempts + 1))];
      }
      return true;
    }

    /** The greatest ordinal in use, or 0. */
    method MaxOrdinal(results: Results) returns (n: nat)
      ensures IsLastOrdinal(results, n)
    {
      n := 0;
      var left := results.Keys;
      while left != {}
        invariant left <= results.Keys
        invariant forall k :: k in results && k !in left ==> results[k].ordinal <= n
        invariant n == 0 || exists k :: k in results && results[k].ordinal == n
        decreases left
      {
        var k :| k in left;
        if results[k].ordinal > n {
          n := results[k].ordinal;
        }
        left := left - {k};
      }
    }

    method AppendResult(j: JobId, key: string, content: bool, bytes: nat, body: string, failureKeys: set<string>)
      returns (r: Appended)
      modifies this
      ensures r.TooLarge? <==> bytes > c.maxItemBytes
      ensures r.TooLarge? || r.NoJob? ==> db == old(db)
      ensures r.NoJob? <==> bytes <= c.maxItemBytes && j !in old(db)
      ensures r.Stored? || r.Known? ==>
                && j in db && db == old(db)[j := db[j]]
                && AppendsResult(old(db)[j], db[j], key, content, bytes, body, failureKeys, r.Stored?)
    {
      if bytes > c.maxItemBytes {
        return TooLarge(bytes);
      }
      if j !in db {
        return NoJob;
      }
      var e := db[j];
      if key in e.results {
        assert db == db[j := db[j]];
        return Known;
      }
      var last := MaxOrdinal(e.results);
      var row := ResultRow(last + 1, content, bytes, body);
      var results := e.results[key := row];
      var reconciled := {key} + failureKeys;
      var prior := |Prior(e.failures, reconciled)|;
      var failures := e.failures;
      if prior > 0 {
        failures := Remaining(e.failures, reconciled);
      } else {
        NothingToReconcile(e.failures, reconciled);
      }
      var job := e.job;
      if job.state == Running {
        job := job.(processed := Max(0, job.processed - prior + 1),
                    succeeded := job.succeeded + (if content then 1 else 0),
                    failed := Max(0, job.failed - prior + (if content then 0 else 1)));
      }
      db := db[j := Entry(job, results, failures)];
      assert db[j] == StoredResult(e, key, row, failureKeys);
      return Stored;
    }

    method AppendFailure(j: JobId, key: string, summary: string)
      modifies this
      ensures db == if j in old(db) then old(db)[j := StoredFailure(old(db)[j], key, summary, c)] else old(db)
    {
      var bounded := Take(summary, c.maxSummaryChars);
      if j !in db {
        return;
      }
      var e := db[j];
      if key in e.results {
        assert db == db[j := db[j]];
        return;
      }
      var inserted := key !in e.failures;
      var failures := e.failures[key := bounded];
      var values := e.job.summaries;
      if Text(bounded) !in values && |values| < c.maxSummaries {
        values := values + [Text(bounded)];
      }
      var job := e.job;
      if job.state == Running {
        job := job.(summaries := values,
                    processed := job.processed + (if inserted then 1 else 0),
                    failed := job.failed + (if inserted then 1 else 0));
      }
      db := db[j := Entry(job, e.results, failures)];
    }

    method AppendSummary(j: JobId, summary: string)
      modifies this
      ensures db == if j in old(db) then WithJob(old(db), j, Summarised(old(db)[j].job, summary, c)) else old(db)
    {
      var bounded := Take(summary, c.maxSummaryChars);
      if j !in db {
        return;
      }
      var values := db[j].job.summaries;
      if Text(bounded) !in values && |values| < c.maxSummaries {
        values := values + [Text(bounded)];
      }
      db := db[j := db[j].(job := db[j].job.(summaries := values))];
    }

    method Finish(j: JobId, s: State, outcome: Option<Outcome>, warnings: seq<string>, now: Time) returns (found: bool)
      modifies this
      ensures found == (j in old(db))
      ensures db == if found
                    then WithJob(old(db), j, FinishedJob(old(db)[j].job, s, outcome, warnings, now, c)) else old(db)
    {
      if j !in db {
        return false;
      }
      var job := db[j].job;
      if Terminal(job.state) || job.state == Expired {
        assert db == db[j := db[j].(job := job)];
        return true;
      }
      var finalState := if job.cancelRequested then Cancelled else s;
      db := db[j := db[j].(job := job.(
        state := finalState, terminalAt := Some(now), retentionDeadline := Some(now + c.retention), outcome := outcome,
        warnings := if |warnings| <= 32 then warnings else warnings[..32], cancelRequested := false))];
      return true;
    }

    method CancelRequested(j: JobId, scope: string, now: Time) returns (found: bool)
      modifies this
      ensures db == RequestCancel(old(db), j, scope, now, c)
      ensures found == (j in db && db[j].job.scope == scope)
    {
      ExpireDueJobs(now);
      if j !in db || db[j].job.scope != scope {
        return false;
      }
      var job := db[j].job;
      if job.state == Queued {
        db := db[j := db[j].(job := job.(state := Cancelled, terminalAt := Some(now),
                                         retentionDeadline := Some(now + c.retention), cancelRequested := false,
                                         outcome := Some(CancelledOutcome)))];
      } else if job.state == Running {
        db := db[j := db[j].(job := job.(cancelRequested := true))];
      } else {
        assert db == db[j := db[j].(job := job)];
      }
      return true;
    }
  }

  lemma NothingToReconcile(failures: Failures, keys: set<string>)
    requires |Prior(failures, keys)| == 0
    ensures Remaining(failures, keys) == failures
  {
    assert forall k :: k in failures && k in keys ==> k in Prior(failures, keys);
  }
}
