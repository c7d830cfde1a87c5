/**
 One worker and any number of API calls over the durable tables. Every transaction is one atomic step;
 the process may stop at any point and start again.
 */
module JobProtocol {
  import opened Options
  import opened JobTables

  /** Where the worker stands; everything here is lost when the process stops. */
  datatype Worker =
    | Down
    | Idle(recover: bool)
    | Holding(job: JobId, attempts: nat, event: bool, phase: Phase)

  /** The worker's place in the attempts of a held job. */
  datatype Phase =
    | Checking
    | Attempting
    | BackingOff
    | CancelEnding
    | Ending(state: State)
    | Failing

  datatype System = System(db: Db, worker: Worker, issued: set<JobId>)

  datatype Step =
    | Submit(id: JobId, submission: Submission, result: ClaimResult)
    | Cancel(target: JobId, scope: string)
    | SignalCancel
    | Read
    | Start
    | Stop
    | RecoverAgain
    | ClaimNext(claimed: Option<JobId>)
    | BeginAttempt
    | StoreResult(key: string, content: bool, bytes: nat, body: string, failureKeys: set<string>, stored: bool)
    | StoreFailure(failureKey: string, reason: string)
    | StoreSummary(summary: string)
    | EndAttempt(retryable: bool, ending: State)
    | BackoffCancelled
    | BackoffEnds
    | FinishCancelled
    | FinishAs(outcome: Option<Outcome>, warnings: seq<string>)
    | StoreError
    | FinishFailed
    | GiveUp

  /** A step of the store on the held job. */
  ghost predicate HeldJob(s: System, t: System, job: Job, worker: Worker)
    requires s.worker.Holding? && s.worker.job in s.db
  {
    t == s.(db := WithJob(s.db, s.worker.job, job), worker := worker)
  }

  ghost predicate Next(s: System, t: System, step: Step, now: Time, c: Config) {
    match step
    case Submit(id, submission, result) =>
      && id !in s.issued
      && Claims(s.db, t.db, id, submission, now, c, result)
      && t.worker == s.worker && t.issued == s.issued + {id}
    case Cancel(target, scope) => t == s.(db := RequestCancel(s.db, target, scope, now, c))
    case Read => t == s.(db := ExpireDue(s.db, now, c))
    case Start => s.worker.Down? && t == s.(db := Recover(s.db, now, c), worker := Idle(false))
    case Stop => t == s.(worker := Down)
    case RecoverAgain => s.worker.Idle? && t == s.(db := Recover(s.db, now, c), worker := Idle(false))
    case ClaimNext(claimed) =>
      && s.worker == Idle(false)
      && ClaimsNext(s.db, t.db, now, c, claimed)
      && t.issued == s.issued
      && t.worker == (if claimed.None? then s.worker
                      else Holding(claimed.value, t.db[claimed.value].job.attempts, false, Checking))
    case _ => s.worker.Holding? && s.worker.job in s.db && HeldNext(s, t, step, now, c)
  }

  /** The steps of a worker that holds a job. */
  ghost predicate HeldNext(s: System, t: System, step: Step, now: Time, c: Config)
    requires s.worker.Holding? && s.worker.job in s.db
  {
    var w := s.worker;
    var e := s.db[w.job];
    match step
    case SignalCancel =>
      w.phase != Failing && e.job.cancelRequested && t == s.(worker := w.(event := true))
    case BeginAttempt =>
      w.phase == Checking && t == s.(worker := w.(phase := if w.event then CancelEnding else Attempting))
    case StoreResult(key, content, bytes, body, failureKeys, stored) =>
      w.phase == Attempting && bytes <= c.maxItemBytes
      && w.job in t.db && AppendsResult(e, t.db[w.job], key, content, bytes, body, failureKeys, stored)
      && t == s.(db := s.db[w.job := t.db[w.job]])
    case StoreFailure(failureKey, reason) =>
      w.phase == Attempting && t == s.(db := s.db[w.job := StoredFailure(e, failureKey, reason, c)])
    case StoreSummary(summary) =>
      (w.phase == Attempting || w.phase == Failing) && HeldJob(s, t, Summarised(e.job, summary, c), w)
    case EndAttempt(retryable, ending) =>
      w.phase == Attempting && (ending == Completed || ending == Partial || ending == Failed)
      && t == s.(worker := w.(phase :=
                   if w.event then CancelEnding
                   else if !retryable || w.attempts >= c.maxAttempts then Ending(ending)
                   else BackingOff))
    case BackoffCancelled =>
      w.phase == BackingOff && w.event && t == s.(worker := w.(phase := CancelEnding))
    case BackoffEnds =>
      w.phase == BackingOff
      && HeldJob(s, t, NextAttempt(e.job), w.(phase := Checking, attempts := NextAttempt(e.job).attempts))
    case FinishCancelled =>
      w.phase == CancelEnding
      && HeldJob(s, t, FinishedJob(e.job, Cancelled, Some(CancelledOutcome), [], now, c), Idle(false))
    case FinishAs(outcome, warnings) =>
      w.phase.Ending?
      && HeldJob(s, t, FinishedJob(e.job, w.phase.state, outcome, warnings, now, c), Idle(false))
    case StoreError => t == s.(worker := w.(phase := Failing))
    case FinishFailed =>
      w.phase == Failing
      && HeldJob(s, t, FinishedJob(e.job, Failed, Some(LocalProcessingFailure), [], now, c), Idle(false))
    case GiveUp => w.phase == Failing && t == s.(worker := Idle(true))
    case _ => false
  }

  ghost predicate Init(s: System) {
    s == System(map[], Down, {})
  }

  // ---------------------------------------------------------------- the invariant

  /** What every stored job satisfies by itself. */
  predicate JobOk(job: Job, c: Config) {
    var ended := Terminal(job.state) || job.state == Expired;
    && (job.cancelRequested ==> job.state == Running)
    && job.attempts <= c.maxAttempts
    && (job.state == Queued ==> job.attempts < c.maxAttempts)
    && (job.state == Running ==> job.startedAt.Some?)
    && (job.terminalAt.Some? <==> ended)
    && (job.retentionDeadline.Some? <==> ended)
    && (ended ==> job.retentionDeadline.value == job.terminalAt.value + c.retention)
    && (job.purgeAfter.Some? <==> job.state == Expired)
    && (job.state == Expired ==> job.purgeAfter.value == job.retentionDeadline.value + c.tombstone)
    && (job.state == Expired <==> job.idempotency.None?)
  }

  function Contents(results: Results): set<string> {
    set k | k in results && results[k].content
  }

  /** The ordinals of n results are exactly 1 to n, each once. */
  ghost predicate Dense(results: Results) {
    && (forall k :: k in results ==> 1 <= results[k].ordinal <= |results|)
    && (forall k, m :: k in results && m in results && results[k].ordinal == results[m].ordinal ==> k == m)
  }

  /** A job's counters (pages processed, succeeded, failed) against its rows. */
  ghost predicate Accounts(processed: int, succeeded: int, failed: int, results: Results, failures: Failures) {
    && results.Keys !! failures.Keys
    && processed == |results| + |failures|
    && succeeded == |Contents(results)|
    && failed == |failures| + (|results| - |Contents(results)|)
    && Dense(results)
  }

  ghost predicate InAccount(e: Entry) {
    Accounts(e.job.processed, e.job.succeeded, e.job.failed, e.results, e.failures)
  }

  /** Rows account for the counters until expiry, after which there are none. */
  ghost predicate RowsOk(e: Entry) {
    if e.job.state == Expired then e.results == map[] && e.failures == map[]
    else InAccount(e)
  }

  /** No stored result is larger than the store's limit on one item. */
  predicate SizesOk(results: Results, c: Config) {
    forall k :: k in results ==> results[k].bytes <= c.maxItemBytes
  }

  ghost predicate EntryOk(e: Entry, c: Config) {
    JobOk(e.job, c) && RowsOk(e) && SizesOk(e.results, c)
  }

  ghost predicate EntriesOk(db: Db, c: Config) {
    forall j :: j in db ==> EntryOk(db[j], c)
  }

  predicate SameClaim(a: Job, b: Job) {
    a.idempotency.Some? && a.scope == b.scope && a.idempotency == b.idempotency
  }

  /** A scope uses an idempotency key for at most one job. */
  ghost predicate KeysUnique(db: Db) {
    forall i, j :: i in db && j in db && SameClaim(db[i].job, db[j].job) ==> i == j
  }

  predicate IsRunning(db: Db, j: JobId) {
    j in db && db[j].job.state == Running
  }

  ghost predicate OneRunning(db: Db) {
    forall i, j :: IsRunning(db, i) && IsRunning(db, j) ==> i == j
  }

  ghost predicate NoneRunning(db: Db) {
    forall j :: j in db ==> !IsRunning(db, j)
  }

  /** What the worker remembers of its job agrees with the tables. */
  ghost predicate WorkerOk(db: Db, w: Worker, c: Config) {
    && (w == Idle(false) ==> NoneRunning(db))
    && (w.Holding? ==>
          && IsRunning(db, w.job)
          && db[w.job].job.attempts == w.attempts
          && (w.event || w.phase == CancelEnding ==> db[w.job].job.cancelRequested)
          && (w.phase == BackingOff ==> w.attempts < c.maxAttempts)
          && (w.phase.Ending? ==> w.phase.state in {Completed, Partial, Failed}))
  }

  ghost predicate Inv(s: System, c: Config) {
    && EntriesOk(s.db, c)
    && KeysUnique(s.db)
    && |s.db| <= c.maxRecords
    && s.db.Keys <= s.issued
    && OneRunning(s.db)
    && WorkerOk(s.db, s.worker, c)
  }

  // ---------------------------------------------------------------- counting

  lemma {:induction false} SubsetSize<T>(a: set<T>, b: set<T>)
    requires a <= b
    ensures |a| <= |b|
  {
    if a != {} {
      var x :| x in a;
      SubsetSize(a - {x}, b - {x});
    }
  }

  lemma ContentsGrow(results: Results, key: string, row: ResultRow)
    requires key !in results
    ensures |results[key := row]| == |results| + 1
    ensures |Contents(results[key := row])| == |Contents(results)| + (if row.content then 1 else 0)
  {
    var after := results[key := row];
    assert after.Keys == results.Keys + {key};
    if row.content {
      assert Contents(after) == Contents(results) + {key};
    } else {
      assert Contents(after) == Contents(results);
    }
  }

  lemma FailuresSplit(failures: Failures, keys: set<string>)
    ensures |Remaining(failures, keys)| == |failures| - |Prior(failures, keys)|
    ensures |Prior(failures, keys)| <= |failures|
  {
    var prior, rest := Prior(failures, keys), Remaining(failures, keys);
    assert failures.Keys == rest.Keys + prior;
    assert rest.Keys !! prior;
    assert |failures| == |failures.Keys| && |rest| == |rest.Keys|;
  }

  lemma ContentsWithin(results: Results)
    ensures |Contents(results)| <= |results|
  {
    SubsetSize(Contents(results), results.Keys);
    assert |results| == |results.Keys|;
  }

  function Ordinals(results: Results, keys: set<string>): set<nat>
    requires keys <= results.Keys
  {
    set k | k in keys :: results[k].ordinal
  }

  lemma {:induction false} OrdinalCount(results: Results, keys: set<string>)
    requires Dense(results) && keys <= results.Keys
    ensures |Ordinals(results, keys)| == |keys|
    decreases keys
  {
    if keys != {} {
      var x :| x in keys;
      OrdinalCount(results, keys - {x});
      var rest := Ordinals(results, keys - {x});
      assert Ordinals(results, keys) == rest + {results[x].ordinal};
      assert results[x].ordinal !in rest;
    }
  }

  function UpTo(n: nat): set<nat> {
    if n == 0 then {} else UpTo(n - 1) + {n}
  }

  lemma {:induction false} UpToSize(n: nat)
    ensures |UpTo(n)| == n
    ensures forall i: nat :: i in UpTo(n) <==> 1 <= i <= n
  {
    if n > 0 { UpToSize(n - 1); }
  }

  /** Distinct ordinals in 1..n that number n reach n, so the next ordinal is n + 1. */
  lemma DenseLast(results: Results, n: nat)
    requires Dense(results) && IsLastOrdinal(results, n)
    ensures n == |results|
  {
    OrdinalCount(results, results.Keys);
    UpToSize(n);
    assert Ordinals(results, results.Keys) <= UpTo(n);
    SubsetSize(Ordinals(results, results.Keys), UpTo(n));
    assert |results| == |results.Keys|;
  }

  /** The clamps of the result counters never take effect on a job whose accounts are in order. */
  lemma ClampsNeverFire(e: Entry, keys: set<string>, content: bool)
    requires InAccount(e)
    ensures var prior := |Prior(e.failures, keys)|;
            e.job.processed - prior + 1 >= 0 && e.job.failed - prior + (if content then 0 else 1) >= 0
  {
    FailuresSplit(e.failures, keys);
    ContentsWithin(e.results);
  }

  lemma DenseGrows(results: Results, key: string, row: ResultRow)
    requires Dense(results) && key !in results && row.ordinal == |results| + 1
    ensures Dense(results[key := row])
  {
    ContentsGrow(results, key, row);
    var after := results[key := row];
    forall k, m | k in after && m in after && after[k].ordinal == after[m].ordinal
      ensures k == m
    {
      if k != key && m != key {
        assert results[k].ordinal == results[m].ordinal;
      }
    }
  }

  lemma ResultAccounts(e: Entry, key: string, row: ResultRow, failureKeys: set<string>)
    requires InAccount(e) && e.job.state == Running
    requires key !in e.results && row.ordinal == |e.results| + 1
    ensures InAccount(StoredResult(e, key, row, failureKeys))
  {
    var keys := {key} + failureKeys;
    ContentsGrow(e.results, key, row);
    FailuresSplit(e.failures, keys);
    ClampsNeverFire(e, keys, row.content);
    DenseGrows(e.results, key, row);
    var f := StoredResult(e, key, row, failureKeys);
    assert f.results.Keys == e.results.Keys + {key};
  }

  /** A failure that a stored result settles remains exactly when the result's key was known already. */
  lemma FailureStaysIffKnown(e: Entry, after: Entry, key: string, content: bool, bytes: nat, body: string,
                             failureKeys: set<string>, stored: bool, failureKey: string)
    requires AppendsResult(e, after, key, content, bytes, body, failureKeys, stored)
    requires failureKey in e.failures && failureKey in failureKeys
    ensures failureKey in after.failures <==> key in e.results
  {
  }

  lemma FailureAccounts(e: Entry, key: string, summary: string, c: Config)
    requires InAccount(e) && e.job.state == Running
    ensures InAccount(StoredFailure(e, key, summary, c))
  {
    if key !in e.results {
      var f := StoredFailure(e, key, summary, c);
      assert f.failures.Keys == e.failures.Keys + {key};
      assert |f.failures| == |f.failures.Keys| && |e.failures| == |e.failures.Keys|;
    }
  }

  // ---------------------------------------------------------------- how one job may change

  /** The edges of a job's life. A running job is cancelled exactly when cancellation was requested. */
  predicate Edge(a: Job, b: Job) {
    || b.state == a.state
    || (a.state == Queued && b.state == Running)
    || (a.state == Queued && b.state == Cancelled)
    || (a.state == Running && a.cancelRequested && b.state == Cancelled)
    || (a.state == Running && !a.cancelRequested && b.state in {Queued, Completed, Partial, Failed})
    || (Terminal(a.state) && b.state == Expired)
  }

  /** What any number of steps keeps of a job's row. */
  predicate Evolves(a: Job, b: Job) {
    && b.scope == a.scope && b.fingerprint == a.fingerprint
    && b.createdAt == a.createdAt && b.pagesTarget == a.pagesTarget
    && (b.idempotency == a.idempotency || (b.state == Expired && b.idempotency.None?))
    && a.attempts <= b.attempts
    && (a.startedAt.Some? ==> b.startedAt == a.startedAt)
    && (a.retentionDeadline.Some? ==> b.retentionDeadline == a.retentionDeadline && b.terminalAt == a.terminalAt)
    && (Terminal(a.state) ==> b.state in {a.state, Expired} && SameReport(a, b))
    && (a.state == Expired ==> b == a)
    && (a.state == Running && a.cancelRequested ==>
          (b.state == Running && b.cancelRequested) || b.state in {Cancelled, Expired})
  }

  /** The report of an ended job: its outcome, warnings, summaries and counters. */
  predicate SameReport(a: Job, b: Job) {
    && b.outcome == a.outcome && b.warnings == a.warnings && b.summaries == a.summaries
    && b.processed == a.processed && b.succeeded == a.succeeded && b.failed == a.failed
    && b.attempts == a.attempts
  }

  /** Before expiry, stored results are never lost or changed, and an ended job gets no new rows. */
  ghost predicate RowsKept(e: Entry, f: Entry) {
    f.job.state != Expired ==>
      && (forall k :: k in e.results ==> k in f.results && f.results[k] == e.results[k])
      && (Terminal(e.job.state) ==> f.results == e.results && f.failures == e.failures)
  }

  ghost predicate EntryEvolves(e: Entry, f: Entry) {
    Evolves(e.job, f.job) && RowsKept(e, f)
  }

  lemma EvolvesTransitively(e: Entry, f: Entry, g: Entry)
    requires EntryEvolves(e, f) && EntryEvolves(f, g)
    ensures EntryEvolves(e, g)
  {
  }

  lemma EvolvesInPlace(e: Entry)
    ensures EntryEvolves(e, e)
  {
  }

  /** A change that is one edge, evolves the entry and leaves it in order. */
  ghost predicate GoodChange(e: Entry, f: Entry, starts: bool, c: Config) {
    && EntryOk(f, c) && EntryEvolves(e, f) && Edge(e.job, f.job)
    && (f.job.state == Running ==> e.job.state == Running || starts)
  }

  lemma ExpiryIsGood(e: Entry, now: Time, c: Config)
    requires EntryOk(e, c)
    ensures GoodChange(e, AfterExpiry(e, now, c), false, c)
  {
  }

  lemma RecoveryIsGood(e: Entry, now: Time, c: Config)
    requires EntryOk(e, c)
    ensures GoodChange(e, e.(job := RecoveredJob(e.job, now, c)), false, c)
  {
  }

  /** Expiry before a cancellation: an ended job is not cancelled, another one is not expired. */
  lemma CancelIsGood(e: Entry, now: Time, c: Config)
    requires EntryOk(e, c)
    ensures var x := AfterExpiry(e, now, c);
            GoodChange(e, x.(job := CancelledJob(x.job, now, c)), false, c)
  {
    ExpiryIsGood(e, now, c);
  }

  lemma StartIsGood(e: Entry, now: Time, c: Config)
    requires EntryOk(e, c) && e.job.state == Queued
    ensures GoodChange(e, e.(job := Started(e.job, now)), true, c)
  {
  }

  lemma AttemptIsGood(e: Entry, c: Config)
    requires EntryOk(e, c) && e.job.state == Running && e.job.attempts < c.maxAttempts
    ensures GoodChange(e, e.(job := NextAttempt(e.job)), false, c)
  {
  }

  lemma SummaryIsGood(e: Entry, summary: string, c: Config)
    requires EntryOk(e, c) && e.job.state == Running
    ensures GoodChange(e, e.(job := Summarised(e.job, summary, c)), false, c)
  {
  }

  lemma FinishIsGood(e: Entry, state: State, outcome: Option<Outcome>, warnings: seq<string>, now: Time, c: Config)
    requires EntryOk(e, c) && e.job.state == Running
    requires state in {Completed, Partial, Failed} || (state == Cancelled && e.job.cancelRequested)
    ensures GoodChange(e, e.(job := FinishedJob(e.job, state, outcome, warnings, now, c)), false, c)
    ensures FinishedJob(e.job, state, outcome, warnings, now, c).state != Running
  {
  }

  lemma ResultIsGood(e: Entry, key: string, row: ResultRow, failureKeys: set<string>, c: Config)
    requires EntryOk(e, c) && e.job.state == Running
    requires key !in e.results && row.ordinal == |e.results| + 1 && row.bytes <= c.maxItemBytes
    ensures GoodChange(e, StoredResult(e, key, row, failureKeys), false, c)
  {
    ResultAccounts(e, key, row, failureKeys);
  }

  lemma FailureIsGood(e: Entry, key: string, summary: string, c: Config)
    requires EntryOk(e, c) && e.job.state == Running
    ensures GoodChange(e, StoredFailure(e, key, summary, c), false, c)
  {
    FailureAccounts(e, key, summary, c);
  }

  lemma NewJobIsGood(sub: Submission, now: Time, c: Config)
    requires c.maxAttempts >= 1
    ensures EntryOk(Entry(NewJob(sub, now), map[], map[]), c)
  {
    var none: Results := map[];
    assert Contents(none) == {};
  }

  // ---------------------------------------------------------------- one step, seen by one job

  predicate ApiStep(step: Step) {
    step.Submit? || step.Cancel? || step.Read?
  }

  predicate LifecycleStep(step: Step) {
    step.Start? || step.Stop? || step.RecoverAgain? || step.ClaimNext?
  }

  /** What an API step may make of one job: expiry, possibly followed by cancellation. */
  lemma ApiStepEntry(s: System, t: System, step: Step, now: Time, c: Config, j: JobId)
    requires ApiStep(step) && Next(s, t, step, now, c) && j in s.db && j in s.issued
    ensures j in t.db <==> !Purgeable(AfterExpiry(s.db[j], now, c).job, now)
    ensures j in t.db ==>
              var x := AfterExpiry(s.db[j], now, c);
              t.db[j] == x || t.db[j] == x.(job := CancelledJob(x.job, now, c))
  {
  }

  lemma ApiStepIsGood(s: System, t: System, step: Step, now: Time, c: Config, j: JobId)
    requires ApiStep(step) && Next(s, t, step, now, c)
    requires j in s.db && j in t.db && EntryOk(s.db[j], c) && j in s.issued
    ensures GoodChange(s.db[j], t.db[j], false, c)
  {
    ApiStepEntry(s, t, step, now, c, j);
    ExpiryIsGood(s.db[j], now, c);
    CancelIsGood(s.db[j], now, c);
  }

  lemma ClaimStepIsGood(s: System, t: System, step: Step, now: Time, c: Config, j: JobId)
    requires step.ClaimNext? && ClaimsNext(s.db, t.db, now, c, step.claimed)
    requires j in s.db && j in t.db && EntryOk(s.db[j], c)
    ensures GoodChange(s.db[j], t.db[j], step == ClaimNext(Some(j)), c)
  {
    ExpiryIsGood(s.db[j], now, c);
    if step.claimed == Some(j) { StartIsGood(AfterExpiry(s.db[j], now, c), now, c); }
  }

  lemma LifecycleStepIsGood(s: System, t: System, step: Step, now: Time, c: Config, j: JobId)
    requires LifecycleStep(step) && Next(s, t, step, now, c)
    requires j in s.db && j in t.db && EntryOk(s.db[j], c)
    ensures GoodChange(s.db[j], t.db[j], step == ClaimNext(Some(j)), c)
  {
    var e := s.db[j];
    EvolvesInPlace(e);
    match step
    case ClaimNext(_) => ClaimStepIsGood(s, t, step, now, c, j);
    case Stop =>
    case _ => RecoveryIsGood(e, now, c);
  }

  /** Any step changes a job it keeps by one good change. */
  lemma StepIsGood(s: System, t: System, step: Step, now: Time, c: Config, j: JobId)
    requires Next(s, t, step, now, c) && WorkerOk(s.db, s.worker, c)
    requires j in s.db && j in t.db && EntryOk(s.db[j], c) && j in s.issued
    ensures GoodChange(s.db[j], t.db[j], step == ClaimNext(Some(j)), c)
  {
    if ApiStep(step) {
      ApiStepIsGood(s, t, step, now, c, j);
    } else if LifecycleStep(step) {
      LifecycleStepIsGood(s, t, step, now, c, j);
    } else {
      EvolvesInPlace(s.db[j]);
      HeldStepElsewhere(s, t, step, now, c, j);
      if j == s.worker.job { HeldStepIsGood(s, t, step, now, c); }
    }
  }

  /** A worker's step on its held job leaves every other job alone. */
  lemma HeldStepElsewhere(s: System, t: System, step: Step, now: Time, c: Config, j: JobId)
    requires Next(s, t, step, now, c) && !ApiStep(step) && !LifecycleStep(step) && j in s.db
    ensures j in t.db && t.db.Keys == s.db.Keys && (j != s.worker.job ==> t.db[j] == s.db[j])
  {
  }

  lemma HeldStepIsGood(s: System, t: System, step: Step, now: Time, c: Config)
    requires s.worker.Holding? && s.worker.job in s.db && HeldNext(s, t, step, now, c)
    requires WorkerOk(s.db, s.worker, c) && EntryOk(s.db[s.worker.job], c)
    ensures s.worker.job in t.db && GoodChange(s.db[s.worker.job], t.db[s.worker.job], false, c)
  {
    var e := s.db[s.worker.job];
    EvolvesInPlace(e);
    match step
    case StoreResult(key, content, bytes, body, failureKeys, stored) =>
      if stored {
        var n: nat :| IsLastOrdinal(e.results, n)
          && t.db[s.worker.job] == StoredResult(e, key, ResultRow(n + 1, content, bytes, body), failureKeys);
        DenseLast(e.results, n);
        ResultIsGood(e, key, ResultRow(n + 1, content, bytes, body), failureKeys, c);
      }
    case StoreFailure(key, reason) => FailureIsGood(e, key, reason, c);
    case StoreSummary(summary) => SummaryIsGood(e, summary, c);
    case BackoffEnds => AttemptIsGood(e, c);
    case FinishCancelled => FinishIsGood(e, Cancelled, Some(CancelledOutcome), [], now, c);
    case FinishAs(outcome, warnings) => FinishIsGood(e, s.worker.phase.state, outcome, warnings, now, c);
    case FinishFailed => FinishIsGood(e, Failed, Some(LocalProcessingFailure), [], now, c);
    case _ =>
  }

  /** A job appears only by submission, under an identifier never issued before. */
  lemma StepDomain(s: System, t: System, step: Step, now: Time, c: Config, j: JobId)
    requires Next(s, t, step, now, c) && j in t.db && j !in s.db
    requires s.db.Keys <= s.issued
    ensures j !in s.issued && j in t.issued && step.Submit? && step.id == j
    ensures t.db[j] == Entry(NewJob(step.submission, now), map[], map[])
    ensures Unclaimed(ExpireDue(s.db, now, c), step.submission) && t.db == ExpireDue(s.db, now, c)[j := t.db[j]]
  {
  }

  /** Identifiers stay issued, and one without a job never gets one again. */
  lemma NeverReturns(s: System, t: System, step: Step, now: Time, c: Config, j: JobId)
    requires Next(s, t, step, now, c) && Inv(s, c) && j in s.issued
    ensures j in t.issued
    ensures j in t.db ==> j in s.db
  {
    if j in t.db && j !in s.db { StepDomain(s, t, step, now, c, j); }
  }

  // ---------------------------------------------------------------- cancelled under another outcome

  /** Cancelled, yet reporting an outcome other than the cancellation. */
  predicate CancelledOtherwise(job: Job) {
    job.state == Cancelled && job.outcome != Some(CancelledOutcome)
  }

  /** Finishing a running job cancels it under another outcome exactly when it was marked and another one is given. */
  lemma FinishedOtherwiseIff(job: Job, s: State, outcome: Option<Outcome>, warnings: seq<string>, now: Time, c: Config)
    requires job.state == Running && s in {Completed, Partial, Failed}
    ensures CancelledOtherwise(FinishedJob(job, s, outcome, warnings, now, c)) <==>
            job.cancelRequested && outcome != Some(CancelledOutcome)
  {
  }

  /** The worker ends its held job j, already marked for cancellation, with an outcome of its own. */
  predicate LateFinish(s: System, step: Step, j: JobId) {
    && s.worker.Holding? && s.worker.job == j && j in s.db && s.db[j].job.cancelRequested
    && (step.FinishFailed? || (step.FinishAs? && step.outcome != Some(CancelledOutcome)))
  }

  lemma LateFinishIsRunning(s: System, step: Step, c: Config, j: JobId)
    requires WorkerOk(s.db, s.worker, c) && LateFinish(s, step, j)
    ensures s.db[j].job.state == Running && !CancelledOtherwise(s.db[j].job)
  {
    assert IsRunning(s.db, j);
  }

  predicate FinishStep(step: Step) {
    step.FinishCancelled? || step.FinishAs? || step.FinishFailed?
  }

  lemma FinishStepCancelsOtherwiseIff(s: System, t: System, step: Step, now: Time, c: Config)
    requires s.worker.Holding? && s.worker.job in s.db && HeldNext(s, t, step, now, c)
    requires WorkerOk(s.db, s.worker, c) && FinishStep(step)
    ensures var j := s.worker.job;
            j in t.db && (CancelledOtherwise(t.db[j].job) <==> LateFinish(s, step, j))
  {
    var job := s.db[s.worker.job].job;
    match step
    case FinishAs(outcome, warnings) =>
      FinishedOtherwiseIff(job, s.worker.phase.state, outcome, warnings, now, c);
    case FinishFailed =>
      FinishedOtherwiseIff(job, Failed, Some(LocalProcessingFailure), [], now, c);
    case FinishCancelled =>
  }

  /** Every other step of the worker leaves its job running. */
  lemma HeldJobStaysRunning(s: System, t: System, step: Step, now: Time, c: Config)
    requires s.worker.Holding? && s.worker.job in s.db && HeldNext(s, t, step, now, c)
    requires s.db[s.worker.job].job.state == Running && !FinishStep(step)
    ensures s.worker.job in t.db && t.db[s.worker.job].job.state == Running
  {
    match step
    case StoreResult(_, _, _, _, _, _) =>
    case StoreFailure(_, _) =>
    case StoreSummary(_) =>
    case BackoffEnds =>
    case _ =>
  }

  lemma ApiChangesOtherwise(e: Entry, now: Time, c: Config)
    requires !CancelledOtherwise(e.job)
    ensures var x := AfterExpiry(e, now, c);
            !CancelledOtherwise(x.job) && !CancelledOtherwise(CancelledJob(x.job, now, c))
  {
  }

  lemma ApiNeverCancelsOtherwise(s: System, t: System, step: Step, now: Time, c: Config, j: JobId)
    requires ApiStep(step) && Next(s, t, step, now, c)
    requires j in s.db && j in s.issued && j in t.db && !CancelledOtherwise(s.db[j].job)
    ensures !CancelledOtherwise(t.db[j].job) && !LateFinish(s, step, j)
  {
    ApiStepEntry(s, t, step, now, c, j);
    ApiChangesOtherwise(s.db[j], now, c);
  }

  lemma LifecycleNeverCancelsOtherwise(s: System, t: System, step: Step, now: Time, c: Config, j: JobId)
    requires LifecycleStep(step) && Next(s, t, step, now, c)
    requires j in s.db && j in t.db && !CancelledOtherwise(s.db[j].job)
    ensures !CancelledOtherwise(t.db[j].job) && !LateFinish(s, step, j)
  {
  }

  lemma NewJobIsNotCancelled(s: System, t: System, step: Step, now: Time, c: Config, j: JobId)
    requires Next(s, t, step, now, c) && s.db.Keys <= s.issued && j in t.db && j !in s.db
    ensures !CancelledOtherwise(t.db[j].job) && !LateFinish(s, step, j)
  {
    StepDomain(s, t, step, now, c, j);
  }

  /** In any step, a job comes to be cancelled under another outcome exactly by a late finish of that job. */
  lemma CancelsOtherwiseIff(s: System, t: System, step: Step, now: Time, c: Config, j: JobId)
    requires Inv(s, c) && Next(s, t, step, now, c) && j in t.db
    requires j in s.db ==> !CancelledOtherwise(s.db[j].job)
    ensures CancelledOtherwise(t.db[j].job) <==> LateFinish(s, step, j)
  {
    if j !in s.db {
      NewJobIsNotCancelled(s, t, step, now, c, j);
    } else if ApiStep(step) {
      ApiNeverCancelsOtherwise(s, t, step, now, c, j);
    } else if LifecycleStep(step) {
      LifecycleNeverCancelsOtherwise(s, t, step, now, c, j);
    } else {
      HeldCancelsOtherwiseIff(s, t, step, now, c, j);
    }
  }

  lemma LateFinishCancels(s: System, t: System, step: Step, now: Time, c: Config, j: JobId)
    requires Inv(s, c) && Next(s, t, step, now, c) && LateFinish(s, step, j) && j in t.db
    ensures CancelledOtherwise(t.db[j].job)
  {
    LateFinishIsRunning(s, step, c, j);
    CancelsOtherwiseIff(s, t, step, now, c, j);
  }

  lemma HeldCancelsOtherwiseIff(s: System, t: System, step: Step, now: Time, c: Config, j: JobId)
    requires WorkerOk(s.db, s.worker, c) && Next(s, t, step, now, c) && !ApiStep(step) && !LifecycleStep(step)
    requires j in s.db && !CancelledOtherwise(s.db[j].job)
    ensures j in t.db && (CancelledOtherwise(t.db[j].job) <==> LateFinish(s, step, j))
  {
    HeldStepElsewhere(s, t, step, now, c, j);
    if FinishStep(step) {
      FinishStepCancelsOtherwiseIff(s, t, step, now, c);
    } else {
      HeldJobStaysRunning(s, t, step, now, c);
    }
  }

  // ---------------------------------------------------------------- every step keeps the invariant

  lemma StepKeepsEntries(s: System, t: System, step: Step, now: Time, c: Config)
    requires Inv(s, c) && Next(s, t, step, now, c) && c.maxAttempts >= 1
    ensures EntriesOk(t.db, c)
  {
    forall j | j in t.db
      ensures EntryOk(t.db[j], c)
    {
      if j in s.db {
        StepIsGood(s, t, step, now, c, j);
      } else {
        StepDomain(s, t, step, now, c, j);
        NewJobIsGood(step.submission, now, c);
      }
    }
  }

  lemma StepKeepsRunning(s: System, t: System, step: Step, now: Time, c: Config)
    requires Inv(s, c) && Next(s, t, step, now, c)
    ensures forall j :: IsRunning(t.db, j) ==> IsRunning(s.db, j) || (step == ClaimNext(Some(j)) && NoneRunning(s.db))
  {
    forall j | IsRunning(t.db, j)
      ensures IsRunning(s.db, j) || (step == ClaimNext(Some(j)) && NoneRunning(s.db))
    {
      if j in s.db {
        StepIsGood(s, t, step, now, c, j);
      } else {
        StepDomain(s, t, step, now, c, j);
      }
    }
  }

  lemma StepKeepsOneRunning(s: System, t: System, step: Step, now: Time, c: Config)
    requires Inv(s, c) && Next(s, t, step, now, c)
    ensures OneRunning(t.db)
  {
    StepKeepsRunning(s, t, step, now, c);
    forall i, j | IsRunning(t.db, i) && IsRunning(t.db, j)
      ensures i == j
    {
    }
  }

  lemma StepKeepsKeys(s: System, t: System, step: Step, now: Time, c: Config)
    requires Inv(s, c) && Next(s, t, step, now, c)
    ensures KeysUnique(t.db)
  {
    forall i, j | i in t.db && j in t.db && SameClaim(t.db[i].job, t.db[j].job)
      ensures i == j
    {
      if i in s.db && j in s.db {
        StepIsGood(s, t, step, now, c, i);
        StepIsGood(s, t, step, now, c, j);
        assert SameClaim(s.db[i].job, s.db[j].job);
      } else if i != j {
        NewKeyIsFresh(s, t, step, now, c, if i in s.db then j else i, if i in s.db then i else j);
      }
    }
  }

  /** A submitted job's key belongs to no other job. */
  lemma NewKeyIsFresh(s: System, t: System, step: Step, now: Time, c: Config, added: JobId, other: JobId)
    requires Inv(s, c) && Next(s, t, step, now, c)
    requires added in t.db && added !in s.db && other in t.db && other != added
    ensures !SameClaim(t.db[added].job, t.db[other].job)
  {
    StepDomain(s, t, step, now, c, added);
    var e := ExpireDue(s.db, now, c);
    assert t.db[other] == e[other];
    assert !SameKey(e[other].job, step.submission);
  }

  lemma StepKeepsSize(s: System, t: System, step: Step, now: Time, c: Config)
    requires Inv(s, c) && Next(s, t, step, now, c)
    ensures |t.db| <= c.maxRecords && t.db.Keys <= t.issued
  {
    assert |t.db| == |t.db.Keys| && |s.db| == |s.db.Keys|;
    if t.db.Keys <= s.db.Keys {
      SubsetSize(t.db.Keys, s.db.Keys);
    } else {
      var j :| j in t.db && j !in s.db;
      NewJobFits(s, t, step, now, c, j);
    }
    assert s.issued <= t.issued;
    forall j | j in t.db
      ensures j in t.issued
    {
      if j !in s.db { StepDomain(s, t, step, now, c, j); }
    }
  }

  lemma NewJobFits(s: System, t: System, step: Step, now: Time, c: Config, j: JobId)
    requires s.db.Keys <= s.issued && Next(s, t, step, now, c) && j in t.db && j !in s.db
    ensures |t.db.Keys| <= c.maxRecords
  {
    StepDomain(s, t, step, now, c, j);
    var e := ExpireDue(s.db, now, c);
    SubmitHasRoom(s, t, step, now, c, j);
    assert t.db.Keys == e.Keys + {j};
    assert |e| == |e.Keys|;
  }

  lemma SubmitHasRoom(s: System, t: System, step: Step, now: Time, c: Config, j: JobId)
    requires Next(s, t, step, now, c) && step.Submit? && j in t.db && j !in s.db
    ensures |ExpireDue(s.db, now, c)| < c.maxRecords
  {
  }

  lemma StepKeepsWorker(s: System, t: System, step: Step, now: Time, c: Config)
    requires Inv(s, c) && Next(s, t, step, now, c)
    ensures WorkerOk(t.db, t.worker, c)
  {
    StepKeepsRunning(s, t, step, now, c);
    if ApiStep(step) {
      if s.worker.Holding? { ApiKeepsHeld(s, t, step, now, c); }
    } else if LifecycleStep(step) {
      LifecycleKeepsWorker(s, t, step, now, c);
    } else {
      HeldKeepsWorker(s, t, step, now, c);
    }
  }

  /** API steps keep a running job, and change nothing of it but the cancellation mark. */
  lemma ApiKeepsHeld(s: System, t: System, step: Step, now: Time, c: Config)
    requires Inv(s, c) && Next(s, t, step, now, c) && ApiStep(step) && s.worker.Holding?
    ensures WorkerOk(t.db, t.worker, c)
  {
    var j := s.worker.job;
    ApiStepEntry(s, t, step, now, c, j);
    assert AfterExpiry(s.db[j], now, c) == s.db[j];
    assert t.worker == s.worker && !t.worker.Idle?;
  }

  lemma LifecycleKeepsWorker(s: System, t: System, step: Step, now: Time, c: Config)
    requires Inv(s, c) && Next(s, t, step, now, c) && LifecycleStep(step)
    requires forall j :: IsRunning(t.db, j) ==> IsRunning(s.db, j) || (step == ClaimNext(Some(j)) && NoneRunning(s.db))
    ensures WorkerOk(t.db, t.worker, c)
  {
    match step
    case Stop =>
    case ClaimNext(claimed) => ClaimKeepsWorker(s, t, claimed, now, c);
    case _ => RecoveryStopsAll(s.db, now, c);
  }

  lemma RecoveryStopsAll(db: Db, now: Time, c: Config)
    ensures NoneRunning(Recover(db, now, c))
  {
  }

  lemma ClaimKeepsWorker(s: System, t: System, claimed: Option<JobId>, now: Time, c: Config)
    requires Next(s, t, ClaimNext(claimed), now, c) && NoneRunning(s.db)
    ensures WorkerOk(t.db, t.worker, c)
  {
  }

  lemma HeldKeepsWorker(s: System, t: System, step: Step, now: Time, c: Config)
    requires Inv(s, c) && Next(s, t, step, now, c) && !ApiStep(step) && !LifecycleStep(step)
    ensures WorkerOk(t.db, t.worker, c)
  {
    if FinishStep(step) {
      HeldStepEnds(s, t, step, now, c);
    } else if step.StoreFailure? || step.StoreSummary? || step.StoreResult? || step.BackoffEnds? {
      HeldWriteKeepsWorker(s, t, step, now, c);
    }
  }

  /** The other writes on the held job leave it running, its mark and the worker's count of attempts in step. */
  lemma HeldWriteKeepsWorker(s: System, t: System, step: Step, now: Time, c: Config)
    requires WorkerOk(s.db, s.worker, c) && s.worker.Holding? && s.worker.job in s.db && HeldNext(s, t, step, now, c)
    requires step.StoreFailure? || step.StoreSummary? || step.StoreResult? || step.BackoffEnds?
    ensures WorkerOk(t.db, t.worker, c)
  {
    var j := s.worker.job;
    var a, b := s.db[j].job, t.db[j].job;
    assert b.state == Running && b.cancelRequested == a.cancelRequested;
    assert b.attempts == if step.BackoffEnds? then a.attempts + 1 else a.attempts;
  }

  /** The finishing steps leave the held job, the only running one, no longer running. */
  lemma HeldStepEnds(s: System, t: System, step: Step, now: Time, c: Config)
    requires Inv(s, c) && Next(s, t, step, now, c) && s.worker.Holding?
    requires FinishStep(step)
    ensures NoneRunning(t.db)
  {
    StepKeepsRunning(s, t, step, now, c);
    forall j | j in t.db
      ensures !IsRunning(t.db, j)
    {
      assert IsRunning(s.db, s.worker.job);
    }
  }

  /** Every step of the worker, the API, a stop or a recovery keeps the invariant. */
  lemma NextKeepsInv(s: System, t: System, step: Step, now: Time, c: Config)
    requires Inv(s, c) && Next(s, t, step, now, c) && c.maxAttempts >= 1
    ensures Inv(t, c)
  {
    StepKeepsEntries(s, t, step, now, c);
    StepKeepsOneRunning(s, t, step, now, c);
    StepKeepsKeys(s, t, step, now, c);
    StepKeepsSize(s, t, step, now, c);
    StepKeepsWorker(s, t, step, now, c);
  }
}
