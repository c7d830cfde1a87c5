/**
 What each step decides about the jobs it meets, said of their rows alone: the fields a step writes, and the rows it
 leaves alone. The functions on tables, and so the methods of the store, are held to this.
 */
module JobDecisions {
  import opened Options
  import opened JobTables
  import opened JobProtocol

  predicate HasEnded(s: State) {
    s in {Completed, Partial, Failed, Cancelled}
  }

  predicate InScope(db: Db, j: JobId, scope: string) {
    j in db && db[j].job.scope == scope
  }

  // ---------------------------------------------------------------- expiry

  /** A row whose time has come by now: the end of its retention, or of its tombstone. */
  predicate Overdue(job: Job, now: Time) {
    || (HasEnded(job.state) && job.retentionDeadline.Some? && job.retentionDeadline.value <= now)
    || (job.state == Expired && job.purgeAfter.Some? && job.purgeAfter.value <= now)
  }

  /**
   Expiry leaves a row alone unless it is overdue. An ended job past its retention loses its rows, key and mark and
   becomes a tombstone for so long after its deadline; a tombstone past its time is gone.
   */
  lemma ReadDecides(s: System, t: System, now: Time, c: Config, j: JobId)
    requires Next(s, t, Read, now, c)
    ensures j in t.db ==> j in s.db
    ensures j in s.db && !Overdue(s.db[j].job, now) ==> j in t.db && t.db[j] == s.db[j]
    ensures j in s.db && Overdue(s.db[j].job, now) && s.db[j].job.state == Expired ==> j !in t.db
    ensures j in s.db && Overdue(s.db[j].job, now) && s.db[j].job.state != Expired ==>
              var until := s.db[j].job.retentionDeadline.value + c.tombstone;
              && (j in t.db <==> now < until)
              && (j in t.db ==>
                    t.db[j] == Entry(s.db[j].job.(state := Expired, idempotency := None, cancelRequested := false,
                                                  purgeAfter := Some(until)), map[], map[]))
  {
  }

  // ---------------------------------------------------------------- submission

  predicate Claimed(db: Db, sub: Submission, j: JobId) {
    j in db && db[j].job.scope == sub.scope && db[j].job.idempotency == Some(sub.idempotency)
  }

  ghost predicate SomeClaimed(db: Db, sub: Submission) {
    exists j :: Claimed(db, sub, j)
  }

  /**
   What a submission is answered, from the tables as a read at the same time leaves them: the job under its key, a
   conflict if that is another request's, and otherwise a new job unless the tables are full.
   */
  lemma SubmitDecides(s: System, t: System, id: JobId, sub: Submission, r: ClaimResult, now: Time, c: Config,
                      e: System)
    requires Next(s, t, Submit(id, sub, r), now, c) && Next(s, e, Read, now, c)
    ensures r.Replayed? ==> Claimed(e.db, sub, r.job) && e.db[r.job].job.fingerprint == sub.fingerprint
    ensures r.Conflict? ==> exists j :: Claimed(e.db, sub, j) && e.db[j].job.fingerprint != sub.fingerprint
    ensures r.Replayed? || r.Conflict? <==> SomeClaimed(e.db, sub)
    ensures r.QueueFull? <==> !SomeClaimed(e.db, sub) && |e.db| >= c.maxRecords
    ensures !r.Created? ==> t.db == e.db
  {
    assert Claims(s.db, t.db, id, sub, now, c, r) && e.db == ExpireDue(s.db, now, c);
    ClaimsFind(s.db, t.db, id, sub, now, c, r);
  }

  lemma ClaimsFind(db: Db, after: Db, id: JobId, sub: Submission, now: Time, c: Config, r: ClaimResult)
    requires Claims(db, after, id, sub, now, c, r)
    ensures var e := ExpireDue(db, now, c);
            && (r.Replayed? ==> Claimed(e, sub, r.job) && e[r.job].job.fingerprint == sub.fingerprint)
            && (r.Conflict? ==> exists j :: Claimed(e, sub, j) && e[j].job.fingerprint != sub.fingerprint)
            && (r.Replayed? || r.Conflict? <==> SomeClaimed(e, sub))
            && (r.QueueFull? <==> !SomeClaimed(e, sub) && |e| >= c.maxRecords)
            && (!r.Created? ==> after == e)
  {
    var e := ExpireDue(db, now, c);
    forall j
      ensures Claimed(e, sub, j) <==> j in e && SameKey(e[j].job, sub)
    {
    }
    match r
    case Replayed(j) => assert Claimed(e, sub, j);
    case Conflict =>
      var j :| j in e && SameKey(e[j].job, sub) && e[j].job.fingerprint != sub.fingerprint;
      assert Claimed(e, sub, j);
    case _ => assert !SomeClaimed(e, sub);
  }

  /** A submission that is accepted adds its job, queued, and changes no other. */
  lemma SubmitCreates(s: System, t: System, id: JobId, sub: Submission, r: ClaimResult, now: Time, c: Config,
                      e: System)
    requires Next(s, t, Submit(id, sub, r), now, c) && Next(s, e, Read, now, c) && r.Created?
    ensures r.job == id && t.db.Keys == e.db.Keys + {id}
    ensures forall j :: j in e.db && j != id ==> t.db[j] == e.db[j]
    ensures t.db[id].results == map[] && t.db[id].failures == map[] && Waiting(t.db[id].job, sub, now)
  {
  }

  /** A job as submitted: queued under its key, with nothing done. */
  predicate Waiting(job: Job, sub: Submission, now: Time) {
    && job.state == Queued && job.createdAt == now && !job.cancelRequested
    && job.scope == sub.scope && job.idempotency == Some(sub.idempotency) && job.fingerprint == sub.fingerprint
    && job.pagesTarget == sub.maxPages
    && job.startedAt == job.terminalAt == job.retentionDeadline == job.purgeAfter == None
    && job.processed == job.succeeded == job.failed == 0 && job.attempts == 0
    && job.summaries == [] && job.outcome == None && job.warnings == []
  }

  // ---------------------------------------------------------------- cancellation

  /** A cancellation in the job's own scope ends a queued job at once and marks a running one. */
  lemma CancelDecides(s: System, t: System, j: JobId, scope: string, now: Time, c: Config)
    requires Next(s, t, Cancel(j, scope), now, c) && InScope(s.db, j, scope)
    ensures s.db[j].job.state == Queued ==>
              && j in t.db
              && t.db[j] == s.db[j].(job := s.db[j].job.(
                   state := Cancelled, outcome := Some(CancelledOutcome), cancelRequested := false,
                   terminalAt := Some(now), retentionDeadline := Some(now + c.retention)))
    ensures s.db[j].job.state == Running ==>
              j in t.db && t.db[j] == s.db[j].(job := s.db[j].job.(cancelRequested := true))
  {
  }

  /** It leaves every other job as a read would, and its own too if that has ended or is of another scope. */
  lemma CancelSpares(s: System, t: System, j: JobId, scope: string, now: Time, c: Config, e: System, m: JobId)
    requires Next(s, t, Cancel(j, scope), now, c) && Next(s, e, Read, now, c)
    requires m in s.db && (m != j || !InScope(s.db, j, scope) || s.db[j].job.state !in {Queued, Running})
    ensures m in t.db <==> m in e.db
    ensures m in e.db ==> t.db[m] == e.db[m]
  {
  }

  // ---------------------------------------------------------------- the worker's claim and recovery

  /** The queue's order: the earliest, and among those of one time the first by identifier. */
  predicate Precedes(db: Db, i: JobId, j: JobId)
    requires i in db && j in db
  {
    || db[i].job.createdAt < db[j].job.createdAt
    || (db[i].job.createdAt == db[j].job.createdAt && i <= j)
  }

  /** The worker takes the first queued job of what a read would show, if there is one, and starts an attempt. */
  lemma ClaimDecides(s: System, t: System, claimed: Option<JobId>, now: Time, c: Config, e: System)
    requires Next(s, t, ClaimNext(claimed), now, c) && Next(s, e, Read, now, c)
    ensures claimed == None <==> forall j :: j in e.db ==> e.db[j].job.state != Queued
    ensures claimed == None ==> t.db == e.db
    ensures claimed.Some? ==>
              var j := claimed.value;
              && j in e.db && e.db[j].job.state == Queued
              && (forall i :: i in e.db && e.db[i].job.state == Queued ==> Precedes(e.db, j, i))
              && t.db.Keys == e.db.Keys && (forall i :: i in e.db && i != j ==> t.db[i] == e.db[i])
              && var job := e.db[j].job;
                 t.db[j] == e.db[j].(job := job.(state := Running, attempts := job.attempts + 1,
                                                 startedAt := if job.startedAt.None? then Some(now) else job.startedAt))
  {
    assert forall j :: IsQueued(e.db, j) <==> j in e.db && e.db[j].job.state == Queued;
  }

  /** A running job found after an interruption: cancelled if it was to be, failed if exhausted, else queued again. */
  lemma RecoveryDecides(s: System, t: System, step: Step, now: Time, c: Config, j: JobId)
    requires (step.Start? || step.RecoverAgain?) && Next(s, t, step, now, c)
    ensures j in t.db <==> j in s.db
    ensures j in s.db ==>
              var job := s.db[j].job;
              var ended := job.(terminalAt := Some(now), retentionDeadline := Some(now + c.retention));
              t.db[j] == s.db[j].(job :=
                if job.state != Running then job
                else if job.cancelRequested then
                  ended.(state := Cancelled, outcome := Some(CancelledOutcome), cancelRequested := false)
                else if job.attempts >= c.maxAttempts then
                  ended.(state := Failed, outcome := Some(LocalProcessingFailure), summaries := [RestartRetryExhausted])
                else job.(state := Queued))
  {
  }

  // ---------------------------------------------------------------- what the worker stores

  ghost predicate OthersSame(s: System, t: System, j: JobId) {
    t.db.Keys == s.db.Keys && forall i :: i in s.db && i != j ==> t.db[i] == s.db[i]
  }

  /** After the wait between attempts the held job has one attempt more; nothing else changes. */
  lemma AttemptDecides(s: System, t: System, now: Time, c: Config)
    requires Next(s, t, BackoffEnds, now, c) && WorkerOk(s.db, s.worker, c)
    ensures OthersSame(s, t, s.worker.job) && t.worker.Holding? && t.worker.job == s.worker.job
    ensures var job := s.db[s.worker.job].job;
            && t.db[s.worker.job] == s.db[s.worker.job].(job := job.(attempts := job.attempts + 1))
            && t.worker.attempts == job.attempts + 1
  {
    assert IsRunning(s.db, s.worker.job);
  }

  /** The outcome, state and warnings that a finishing step has in mind. */
  predicate Finishing(s: System, step: Step, state: State, outcome: Option<Outcome>, warnings: seq<string>)
    requires s.worker.Holding?
  {
    || (step.FinishAs? && s.worker.phase.Ending? && state == s.worker.phase.state
        && outcome == step.outcome && warnings == step.warnings)
    || (step.FinishFailed? && state == Failed && outcome == Some(LocalProcessingFailure) && warnings == [])
    || (step.FinishCancelled? && state == Cancelled && outcome == Some(CancelledOutcome) && warnings == [])
  }

  lemma FinishedFields(job: Job, state: State, outcome: Option<Outcome>, warnings: seq<string>, now: Time, c: Config)
    requires job.state == Running
    ensures FinishedJob(job, state, outcome, warnings, now, c) == job.(
              state := if job.cancelRequested then Cancelled else state, outcome := outcome,
              cancelRequested := false, warnings := if |warnings| > 32 then warnings[..32] else warnings,
              terminalAt := Some(now), retentionDeadline := Some(now + c.retention))
  {
  }

  /** The held job ends in the state its worker has in mind, or cancelled if that was asked for meanwhile. */
  lemma FinishDecides(s: System, t: System, step: Step, state: State, outcome: Option<Outcome>, warnings: seq<string>,
                      now: Time, c: Config)
    requires Next(s, t, step, now, c) && s.worker.Holding? && WorkerOk(s.db, s.worker, c)
    requires Finishing(s, step, state, outcome, warnings)
    ensures var j := s.worker.job; var job := s.db[j].job;
            && t.worker == Idle(false) && OthersSame(s, t, j)
            && t.db[j].results == s.db[j].results && t.db[j].failures == s.db[j].failures
            && t.db[j].job == job.(
                 state := if job.cancelRequested then Cancelled else state, outcome := outcome,
                 cancelRequested := false, warnings := if |warnings| > 32 then warnings[..32] else warnings,
                 terminalAt := Some(now), retentionDeadline := Some(now + c.retention))
  {
    assert IsRunning(s.db, s.worker.job);
    FinishedFields(s.db[s.worker.job].job, state, outcome, warnings, now, c);
  }

  /**
   A result under a new key becomes the last row of its job, settles the failures of its keys and is counted; one under
   a known key changes nothing.
   */
  lemma ResultDecides(s: System, t: System, step: Step, now: Time, c: Config)
    requires Next(s, t, step, now, c) && step.StoreResult? && WorkerOk(s.db, s.worker, c)
    requires EntryOk(s.db[s.worker.job], c)
    ensures t.worker == s.worker && OthersSame(s, t, s.worker.job)
    ensures var e, f := s.db[s.worker.job], t.db[s.worker.job];
            var settled := set k | k in e.failures && (k == step.key || k in step.failureKeys);
            && step.stored == (step.key !in e.results)
            && (!step.stored ==> f == e)
            && (step.stored ==>
                  && f.results == e.results[step.key :=
                       ResultRow(|e.results| + 1, step.content, step.bytes, step.body)]
                  && f.failures == e.failures - settled
                  && f.job == e.job.(
                       processed := e.job.processed - |settled| + 1,
                       succeeded := e.job.succeeded + if step.content then 1 else 0,
                       failed := e.job.failed - |settled| + if step.content then 0 else 1))
  {
    assert IsRunning(s.db, s.worker.job);
    if step.stored {
      var e, f := s.db[s.worker.job], t.db[s.worker.job];
      NextRow(e, f, step.key, step.content, step.bytes, step.body, step.failureKeys);
      ClampsNeverFire(e, {step.key} + step.failureKeys, step.content);
      StoredFields(e, f, step.key, ResultRow(|e.results| + 1, step.content, step.bytes, step.body), step.failureKeys);
    }
  }

  lemma NextRow(e: Entry, f: Entry, key: string, content: bool, bytes: nat, body: string, failureKeys: set<string>)
    requires AppendsResult(e, f, key, content, bytes, body, failureKeys, true) && Dense(e.results)
    ensures f == StoredResult(e, key, ResultRow(|e.results| + 1, content, bytes, body), failureKeys)
  {
    var n: nat :| IsLastOrdinal(e.results, n)
      && f == StoredResult(e, key, ResultRow(n + 1, content, bytes, body), failureKeys);
    DenseLast(e.results, n);
  }

  lemma StoredFields(e: Entry, f: Entry, key: string, row: ResultRow, failureKeys: set<string>)
    requires e.job.state == Running && f == StoredResult(e, key, row, failureKeys)
    requires var prior := |Prior(e.failures, {key} + failureKeys)|;
             0 <= e.job.processed - prior + 1 && 0 <= e.job.failed - prior + if row.content then 0 else 1
    ensures var settled := set k | k in e.failures && (k == key || k in failureKeys);
            && f.results == e.results[key := row] && f.failures == e.failures - settled
            && f.job == e.job.(
                 processed := e.job.processed - |settled| + 1,
                 succeeded := e.job.succeeded + if row.content then 1 else 0,
                 failed := e.job.failed - |settled| + if row.content then 0 else 1)
  {
    SettledAre(e.failures, key, failureKeys);
  }

  lemma SettledAre(failures: Failures, key: string, failureKeys: set<string>)
    ensures var settled := set k | k in failures && (k == key || k in failureKeys);
            && Prior(failures, {key} + failureKeys) == settled
            && Remaining(failures, {key} + failureKeys) == failures - settled
  {
  }

  predicate Logged(summaries: seq<Summary>, text: string) {
    Text(text) in summaries
  }

  /**
   A failure of a key without a result is recorded with its bounded summary, counted if it is the first of its key,
   and logged unless the log has it or is full; one of a key with a result changes nothing.
   */
  lemma FailureDecides(s: System, t: System, failureKey: string, reason: string, now: Time, c: Config)
    requires Next(s, t, StoreFailure(failureKey, reason), now, c) && WorkerOk(s.db, s.worker, c)
    ensures t.worker == s.worker && OthersSame(s, t, s.worker.job)
    ensures var e, f := s.db[s.worker.job], t.db[s.worker.job];
            var summary := if |reason| > c.maxSummaryChars then reason[..c.maxSummaryChars] else reason;
            var first, log := if failureKey in e.failures then 0 else 1, e.job.summaries;
            && (failureKey in e.results ==> f == e)
            && (failureKey !in e.results ==>
                  && f.results == e.results && f.failures == e.failures[failureKey := summary]
                  && f.job == e.job.(
                       processed := e.job.processed + first, failed := e.job.failed + first,
                       summaries := if Logged(log, summary) || |log| >= c.maxSummaries then log
                                    else log + [Text(summary)]))
  {
    assert IsRunning(s.db, s.worker.job);
  }

  /** A summary is logged in the same way, and nothing else changes. */
  lemma SummaryDecides(s: System, t: System, reason: string, now: Time, c: Config)
    requires Next(s, t, StoreSummary(reason), now, c)
    ensures t.worker == s.worker && OthersSame(s, t, s.worker.job)
    ensures var e := s.db[s.worker.job];
            var summary := if |reason| > c.maxSummaryChars then reason[..c.maxSummaryChars] else reason;
            var log := e.job.summaries;
            t.db[s.worker.job] == e.(job := e.job.(
              summaries := if Logged(log, summary) || |log| >= c.maxSummaries then log else log + [Text(summary)]))
  {
  }
}
