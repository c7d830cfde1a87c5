/**
 The durable crawl-job tables as values, and each transaction of the store as a function on them.
 The imperative store is proved against these functions; the protocol reasons about them.
 */
module JobTables {
  import opened Options

  /** Identifiers stand for their text in its sort order. */
  type JobId = nat
  type Time = int

  datatype State = Queued | Running | Completed | Partial | Failed | Cancelled | Expired

  predicate Terminal(s: State) {
    s == Completed || s == Partial || s == Failed || s == Cancelled
  }

  /** What the job reports as its outcome. */
  datatype Outcome = CancelledOutcome | LocalProcessingFailure | Reported(code: string)

  /** One line of the bounded failure log. */
  datatype Summary = RestartRetryExhausted | Text(text: string)

  datatype Job = Job(
    scope: string,
    idempotency: Option<string>,
    fingerprint: string,
    state: State,
    createdAt: Time,
    startedAt: Option<Time>,
    terminalAt: Option<Time>,
    retentionDeadline: Option<Time>,
    purgeAfter: Option<Time>,
    cancelRequested: bool,
    pagesTarget: nat,
    processed: int,
    succeeded: int,
    failed: int,
    attempts: nat,
    summaries: seq<Summary>,
    outcome: Option<Outcome>,
    warnings: seq<string>)

  /** A stored page result: its place in delivery order and whether its outcome is content. */
  datatype ResultRow = ResultRow(ordinal: nat, content: bool, bytes: nat, body: string)

  type Results = map<string, ResultRow>
  type Failures = map<string, string>

  /** A job's row with the result and failure rows that refer to it and go when it goes. */
  datatype Entry = Entry(job: Job, results: Results, failures: Failures)

  type Db = map<JobId, Entry>

  datatype Config = Config(
    retention: nat,
    tombstone: nat,
    maxRecords: nat,
    maxAttempts: nat,
    maxSummaries: nat,
    maxSummaryChars: nat,
    maxItemBytes: nat)

  function Max(a: int, b: int): int {
    if a > b then a else b
  }

  function Take(s: string, n: nat): string {
    if |s| <= n then s else s[..n]
  }

  // ---------------------------------------------------------------- expiry

  predicate Due(job: Job, now: Time) {
    Terminal(job.state) && job.retentionDeadline.Some? && job.retentionDeadline.value <= now
  }

  function Tombstone(job: Job, c: Config): Job
    requires job.retentionDeadline.Some?
  {
    job.(state := Expired, idempotency := None, cancelRequested := false,
         purgeAfter := Some(job.retentionDeadline.value + c.tombstone))
  }

  /** A due entry keeps its counters but loses its rows and its idempotency key. */
  function AfterExpiry(e: Entry, now: Time, c: Config): Entry {
    if Due(e.job, now) then Entry(Tombstone(e.job, c), map[], map[]) else e
  }

  predicate Purgeable(job: Job, now: Time) {
    job.state == Expired && job.purgeAfter.Some? && job.purgeAfter.value <= now
  }

  function ExpireDue(db: Db, now: Time, c: Config): Db {
    map j | j in db && !Purgeable(AfterExpiry(db[j], now, c).job, now) :: AfterExpiry(db[j], now, c)
  }

  // ---------------------------------------------------------------- creating

  datatype ClaimResult = Created(job: JobId) | Replayed(job: JobId) | Conflict | QueueFull

  datatype Submission = Submission(scope: string, idempotency: string, fingerprint: string, maxPages: nat)

  predicate SameKey(job: Job, s: Submission) {
    job.scope == s.scope && job.idempotency == Some(s.idempotency)
  }

  function NewJob(s: Submission, now: Time): Job {
    Job(s.scope, Some(s.idempotency), s.fingerprint, Queued, now, None, None, None, None, false, s.maxPages,
        0, 0, 0, 0, [], None, [])
  }

  /** No job holds the submission's key. */
  ghost predicate Unclaimed(db: Db, s: Submission) {
    forall j :: j in db ==> !SameKey(db[j].job, s)
  }

  /** The transaction that submits a job, as a relation: expiry first, then replay, conflict, refusal or a new row. */
  ghost predicate Claims(db: Db, after: Db, id: JobId, s: Submission, now: Time, c: Config, r: ClaimResult) {
    var e := ExpireDue(db, now, c);
    match r
    case Replayed(j) =>
      after == e && j in e && SameKey(e[j].job, s) && e[j].job.fingerprint == s.fingerprint
    case Conflict =>
      after == e && exists j :: j in e && SameKey(e[j].job, s) && e[j].job.fingerprint != s.fingerprint
    case QueueFull =>
      after == e && Unclaimed(e, s) && |e| >= c.maxRecords
    case Created(j) =>
      j == id && Unclaimed(e, s) && |e| < c.maxRecords && after == e[id := Entry(NewJob(s, now), map[], map[])]
  }

  // ---------------------------------------------------------------- working

  predicate IsQueued(db: Db, j: JobId) {
    j in db && db[j].job.state == Queued
  }

  /** The order of the queue: creation time, then identifier. */
  predicate Before(db: Db, i: JobId, j: JobId)
    requires i in db && j in db
  {
    var s, t := db[i].job.createdAt, db[j].job.createdAt;
    s < t || (s == t && i <= j)
  }

  ghost predicate FirstQueued(db: Db, j: JobId) {
    IsQueued(db, j) && forall i :: IsQueued(db, i) ==> Before(db, j, i)
  }

  function Started(job: Job, now: Time): Job {
    job.(state := Running, startedAt := if job.startedAt.Some? then job.startedAt else Some(now),
         attempts := job.attempts + 1)
  }

  /** The worker's claim: expiry, then the first queued job, if any, starts running. */
  ghost predicate ClaimsNext(db: Db, after: Db, now: Time, c: Config, r: Option<JobId>) {
    var e := ExpireDue(db, now, c);
    if r.None? then after == e && forall j :: j in e ==> !IsQueued(e, j)
    else FirstQueued(e, r.value) && after == WithJob(e, r.value, Started(e[r.value].job, now))
  }

  /** Replacing a job's row. */
  function WithJob(db: Db, j: JobId, job: Job): Db
    requires j in db
  {
    db[j := db[j].(job := job)]
  }

  function EndNow(job: Job, s: State, now: Time, c: Config): Job {
    job.(state := s, terminalAt := Some(now), retentionDeadline := Some(now + c.retention))
  }

  /** What recovery makes of one job: only running jobs change. */
  function RecoveredJob(job: Job, now: Time, c: Config): Job {
    if job.state != Running then job
    else if job.cancelRequested then
      EndNow(job, Cancelled, now, c).(cancelRequested := false, outcome := Some(CancelledOutcome))
    else if job.attempts >= c.maxAttempts then
      EndNow(job, Failed, now, c).(outcome := Some(LocalProcessingFailure), summaries := [RestartRetryExhausted])
    else job.(state := Queued)
  }

  function Recover(db: Db, now: Time, c: Config): Db {
    map j | j in db :: db[j].(job := RecoveredJob(db[j].job, now, c))
  }

  function NextAttempt(job: Job): Job {
    if job.state == Running then job.(attempts := job.attempts + 1) else job
  }

  // ---------------------------------------------------------------- results and failures

  /** The greatest ordinal in use, or 0. */
  ghost predicate IsLastOrdinal(results: Results, n: nat) {
    && (forall k :: k in results ==> results[k].ordinal <= n)
    && (n == 0 || exists k :: k in results && results[k].ordinal == n)
  }

  function Prior(failures: Failures, keys: set<string>): set<string> {
    set k | k in failures && k in keys
  }

  function Remaining(failures: Failures, keys: set<string>): Failures {
    map k | k in failures && k !in keys :: failures[k]
  }

  function CountResult(job: Job, prior: nat, content: bool): Job {
    if job.state != Running then job
    else job.(
      processed := Max(0, job.processed - prior + 1),
      succeeded := job.succeeded + (if content then 1 else 0),
      failed := Max(0, job.failed - prior + (if content then 0 else 1)))
  }

  /** Storing a result under a new key reconciles the failures it settles. */
  function StoredResult(e: Entry, key: string, row: ResultRow, failureKeys: set<string>): Entry {
    var keys := {key} + failureKeys;
    Entry(CountResult(e.job, |Prior(e.failures, keys)|, row.content),
          e.results[key := row], Remaining(e.failures, keys))
  }

  /** The append of a result: nothing on a known key, otherwise the next ordinal. */
  ghost predicate AppendsResult(e: Entry, after: Entry, key: string, content: bool, bytes: nat, body: string,
                                failureKeys: set<string>, stored: bool)
  {
    && (stored <==> key !in e.results)
    && (!stored ==> after == e)
    && (stored ==> exists n: nat ::
          IsLastOrdinal(e.results, n)
            && after == StoredResult(e, key, ResultRow(n + 1, content, bytes, body), failureKeys))
  }

  function WithSummary(summaries: seq<Summary>, text: string, c: Config): seq<Summary> {
    var summary := Text(text);
    if summary !in summaries && |summaries| < c.maxSummaries then summaries + [summary] else summaries
  }

  function CountFailure(job: Job, summary: string, inserted: bool, c: Config): Job {
    if job.state != Running then job
    else job.(
      summaries := WithSummary(job.summaries, summary, c),
      processed := job.processed + (if inserted then 1 else 0),
      failed := job.failed + (if inserted then 1 else 0))
  }

  /** The append of a failure: nothing on a key with a result, one row a key otherwise. */
  function StoredFailure(e: Entry, key: string, summary: string, c: Config): Entry {
    var bounded := Take(summary, c.maxSummaryChars);
    if key in e.results then e
    else Entry(CountFailure(e.job, bounded, key !in e.failures, c), e.results, e.failures[key := bounded])
  }

  function Summarised(job: Job, summary: string, c: Config): Job {
    job.(summaries := WithSummary(job.summaries, Take(summary, c.maxSummaryChars), c))
  }

  // ---------------------------------------------------------------- ending

  /** Finishing leaves ended jobs alone; a requested cancellation overrides the state but not the outcome. */
  function FinishedJob(job: Job, s: State, outcome: Option<Outcome>, warnings: seq<string>, now: Time, c: Config): Job {
    if Terminal(job.state) || job.state == Expired then job
    else EndNow(job, if job.cancelRequested then Cancelled else s, now, c)
         .(outcome := outcome,
           warnings := if |warnings| <= 32 then warnings else warnings[..32], cancelRequested := false)
  }

  /** A queued job is cancelled at once; a running one is marked. */
  function CancelledJob(job: Job, now: Time, c: Config): Job {
    if job.state == Queued then
      EndNow(job, Cancelled, now, c).(cancelRequested := false, outcome := Some(CancelledOutcome))
    else if job.state == Running then job.(cancelRequested := true)
    else job
  }

  function RequestCancel(db: Db, j: JobId, scope: string, now: Time, c: Config): Db {
    var e := ExpireDue(db, now, c);
    if j in e && e[j].job.scope == scope then WithJob(e, j, CancelledJob(e[j].job, now, c)) else e
  }
}
