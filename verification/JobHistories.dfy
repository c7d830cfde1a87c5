/** What holds over whole histories of the crawl-job service, from an empty store. */
module JobHistories {
  import opened Options
  import opened JobTables
  import opened JobProtocol
  import JobDecisions
  import ResultPages

  /** A run from an empty store: states, with the step and the clock reading between each two. */
  datatype Run = Run(states: seq<System>, steps: seq<Step>, times: seq<Time>)

  ghost predicate IsRun(r: Run, c: Config) {
    && |r.states| == |r.steps| + 1 && |r.times| == |r.steps|
    && Init(r.states[0])
    && forall i :: 0 <= i < |r.steps| ==> StepAt(r, i, c)
  }

  ghost predicate StepAt(r: Run, i: nat, c: Config)
    requires i < |r.steps| && |r.states| == |r.steps| + 1 && |r.times| == |r.steps|
  {
    Next(r.states[i], r.states[i + 1], r.steps[i], r.times[i], c)
  }

  lemma {:induction false} RunKeepsInv(r: Run, c: Config, i: nat)
    requires IsRun(r, c) && c.maxAttempts >= 1 && i < |r.states|
    ensures Inv(r.states[i], c)
  {
    if i > 0 {
      RunKeepsInv(r, c, i - 1);
      assert StepAt(r, i - 1, c);
      NextKeepsInv(r.states[i - 1], r.states[i], r.steps[i - 1], r.times[i - 1], c);
    }
  }

  /**
   In every reachable state: at most one running job, bounded attempts, accounts in order, no cancelled-looking
   stray.
   */
  lemma ReachableStates(r: Run, c: Config, i: nat, j: JobId, k: JobId)
    requires IsRun(r, c) && c.maxAttempts >= 1 && i < |r.states|
    requires j in r.states[i].db && k in r.states[i].db
    ensures var a, b := r.states[i].db[j].job, r.states[i].db[k].job;
            && (a.state == Running && b.state == Running ==> j == k)
            && a.attempts <= c.maxAttempts
            && (a.cancelRequested ==> a.state == Running)
            && (SameClaim(a, b) ==> j == k)
    ensures var e := r.states[i].db[j];
            if e.job.state == Expired then |e.results| == |e.failures| == 0
            else
              && e.results.Keys !! e.failures.Keys
              && e.job.processed == |e.results| + |e.failures|
              && e.job.succeeded == |Contents(e.results)|
              && e.job.failed == |e.failures| + |e.results| - |Contents(e.results)|
              && Dense(e.results)
    ensures |r.states[i].db| <= c.maxRecords
  {
    RunKeepsInv(r, c, i);
    assert EntryOk(r.states[i].db[j], c) && EntryOk(r.states[i].db[k], c);
    assert IsRunning(r.states[i].db, j) <==> r.states[i].db[j].job.state == Running;
    assert IsRunning(r.states[i].db, k) <==> r.states[i].db[k].job.state == Running;
  }

  /** Identifiers stay issued, and one without a job never gets one again. */
  lemma StepNeverReturns(r: Run, c: Config, i: nat, j: JobId)
    requires IsRun(r, c) && c.maxAttempts >= 1 && i < |r.steps|
    requires j in r.states[i].issued
    ensures j in r.states[i + 1].issued
    ensures j in r.states[i + 1].db ==> j in r.states[i].db
  {
    RunKeepsInv(r, c, i);
    assert StepAt(r, i, c);
    NeverReturns(r.states[i], r.states[i + 1], r.steps[i], r.times[i], c, j);
  }

  lemma {:induction false} StaysIssued(r: Run, c: Config, i: nat, k: nat, j: JobId)
    requires IsRun(r, c) && c.maxAttempts >= 1 && i <= k < |r.states|
    requires j in r.states[i].db
    ensures j in r.states[k].issued
  {
    if i == k {
      RunKeepsInv(r, c, i);
    } else {
      StaysIssued(r, c, i, k - 1, j);
      StepNeverReturns(r, c, k - 1, j);
    }
  }

  /** A purged job never comes back: what is there later was there all along. */
  lemma PresentBetween(r: Run, c: Config, i: nat, k: nat, j: JobId)
    requires IsRun(r, c) && c.maxAttempts >= 1 && i < k < |r.states|
    requires j in r.states[i].db && j in r.states[k].db
    ensures j in r.states[k - 1].db
  {
    StaysIssued(r, c, i, k - 1, j);
    StepNeverReturns(r, c, k - 1, j);
  }

  /** The last step before k, seen by a job present on both sides. */
  lemma LastStep(r: Run, c: Config, k: nat, j: JobId)
    requires IsRun(r, c) && c.maxAttempts >= 1 && 0 < k < |r.states|
    requires j in r.states[k - 1].db && j in r.states[k].db
    ensures EntryEvolves(r.states[k - 1].db[j], r.states[k].db[j])
    ensures Edge(r.states[k - 1].db[j].job, r.states[k].db[j].job)
  {
    RunKeepsInv(r, c, k - 1);
    assert StepAt(r, k - 1, c);
    assert EntryOk(r.states[k - 1].db[j], c);
    StepIsGood(r.states[k - 1], r.states[k], r.steps[k - 1], r.times[k - 1], c, j);
  }

  /**
   Over any stretch of history a job keeps its identity, its retention deadline once written, its report
   once ended and its stored results until expiry; attempts never decrease and an ended job only expires.
   */
  lemma {:induction false} JobHistory(r: Run, c: Config, i: nat, k: nat, j: JobId)
    requires IsRun(r, c) && c.maxAttempts >= 1 && i <= k < |r.states|
    requires j in r.states[i].db && j in r.states[k].db
    ensures EntryEvolves(r.states[i].db[j], r.states[k].db[j])
  {
    if i == k {
      EvolvesInPlace(r.states[i].db[j]);
    } else {
      PresentBetween(r, c, i, k, j);
      JobHistory(r, c, i, k - 1, j);
      LastStep(r, c, k, j);
      EvolvesTransitively(r.states[i].db[j], r.states[k - 1].db[j], r.states[k].db[j]);
    }
  }

  /** A job's delivery log only grows at its end, and is final once the job has ended, until it expires. */
  lemma DeliveryLogGrows(r: Run, c: Config, i: nat, k: nat, j: JobId)
    requires IsRun(r, c) && c.maxAttempts >= 1 && i <= k < |r.states|
    requires j in r.states[i].db && j in r.states[k].db && r.states[k].db[j].job.state != Expired
    ensures Dense(r.states[i].db[j].results) && Dense(r.states[k].db[j].results)
    ensures ResultPages.Log(r.states[i].db[j].results) <= ResultPages.Log(r.states[k].db[j].results)
    ensures Terminal(r.states[i].db[j].job.state) ==> r.states[i].db[j].results == r.states[k].db[j].results
  {
    JobHistory(r, c, i, k, j);
    ReachableStates(r, c, i, j, j);
    ReachableStates(r, c, k, j, j);
    ResultPages.LogGrows(r.states[i].db[j].results, r.states[k].db[j].results);
  }

  /**
   Once the cancellation of a running job is stored, crashes, retries and races included, the job stays
   running and marked until it is cancelled, and is expired only after that.
   */
  lemma {:induction false} CancelIsHonoured(r: Run, c: Config, i: nat, k: nat, j: JobId)
    requires IsRun(r, c) && c.maxAttempts >= 1 && i <= k < |r.states|
    requires j in r.states[i].db && j in r.states[k].db
    requires r.states[i].db[j].job.state == Running && r.states[i].db[j].job.cancelRequested
    ensures var job := r.states[k].db[j].job;
            || (job.state == Running && job.cancelRequested)
            || job.state == Cancelled
            || (job.state == Expired && exists m ::
                  i < m < k && j in r.states[m].db && r.states[m].db[j].job.state == Cancelled)
  {
    if i < k {
      PresentBetween(r, c, i, k, j);
      CancelIsHonoured(r, c, i, k - 1, j);
      LastStep(r, c, k, j);
      var before := r.states[k - 1].db[j].job;
      if r.states[k].db[j].job.state == Expired && before.state == Cancelled {
        assert j in r.states[k - 1].db && r.states[k - 1].db[j].job.state == Cancelled;
      }
    }
  }

  /** A queued job cancelled in its own scope is cancelled from then on, until it expires, and never runs. */
  lemma QueuedCancelIsFinal(r: Run, c: Config, m: nat, k: nat, j: JobId, scope: string)
    requires IsRun(r, c) && c.maxAttempts >= 1 && m < k < |r.states| && r.steps[m] == Cancel(j, scope)
    requires j in r.states[m].db && r.states[m].db[j].job.state == Queued && r.states[m].db[j].job.scope == scope
    ensures j in r.states[m + 1].db && r.states[m + 1].db[j].job.state == Cancelled
    ensures j in r.states[k].db ==> r.states[k].db[j].job.state in {Cancelled, Expired}
    ensures j in r.states[k].db ==> r.states[k].db[j].job.outcome == Some(CancelledOutcome)
  {
    assert StepAt(r, m, c);
    JobDecisions.CancelDecides(r.states[m], r.states[m + 1], j, scope, r.times[m], c);
    if j in r.states[k].db { JobHistory(r, c, m + 1, k, j); }
  }

  /** Resubmitting under a live key returns the same job, or a conflict if the request differs; nothing is added. */
  lemma ResubmissionReplays(r: Run, c: Config, i: nat, j: JobId, sub: Submission)
    requires IsRun(r, c) && c.maxAttempts >= 1 && i < |r.steps|
    requires r.steps[i].Submit? && r.steps[i].submission == sub
    requires j in ExpireDue(r.states[i].db, r.times[i], c)
    requires SameKey(ExpireDue(r.states[i].db, r.times[i], c)[j].job, sub)
    ensures var e := ExpireDue(r.states[i].db, r.times[i], c);
            && r.steps[i].result == (if e[j].job.fingerprint == sub.fingerprint then Replayed(j) else Conflict)
            && r.states[i + 1].db == e
  {
    var s, now := r.states[i], r.times[i];
    RunKeepsInv(r, c, i);
    assert StepAt(r, i, c);
    var e := ExpireDue(s.db, now, c);
    forall m | m in e && SameKey(e[m].job, sub)
      ensures m == j
    {
      assert SameClaim(s.db[m].job, s.db[j].job);
    }
  }

  /** In the step after state m the worker ends job j, already marked for cancellation, with an outcome of its own. */
  ghost predicate EndedLate(r: Run, m: nat, j: JobId)
    requires |r.states| == |r.steps| + 1
  {
    m < |r.steps| && LateFinish(r.states[m], r.steps[m], j)
  }

  lemma LastStepOtherwiseIff(r: Run, c: Config, k: nat, j: JobId)
    requires IsRun(r, c) && c.maxAttempts >= 1 && 0 < k < |r.states| && j in r.states[k].db
    requires j in r.states[k - 1].db ==> !CancelledOtherwise(r.states[k - 1].db[j].job)
    ensures CancelledOtherwise(r.states[k].db[j].job) <==> EndedLate(r, k - 1, j)
  {
    RunKeepsInv(r, c, k - 1);
    assert StepAt(r, k - 1, c);
    CancelsOtherwiseIff(r.states[k - 1], r.states[k], r.steps[k - 1], r.times[k - 1], c, j);
  }

  lemma LastStepKeepsOtherwise(r: Run, c: Config, k: nat, j: JobId)
    requires IsRun(r, c) && c.maxAttempts >= 1 && 0 < k < |r.states|
    requires j in r.states[k - 1].db && j in r.states[k].db && r.states[k].db[j].job.state != Expired
    ensures r.states[k - 1].db[j].job.state != Expired
    ensures CancelledOtherwise(r.states[k - 1].db[j].job) ==> CancelledOtherwise(r.states[k].db[j].job)
  {
    LastStep(r, c, k, j);
  }

  lemma EndedLateNow(r: Run, c: Config, m: nat, j: JobId)
    requires IsRun(r, c) && c.maxAttempts >= 1 && EndedLate(r, m, j) && j in r.states[m + 1].db
    ensures CancelledOtherwise(r.states[m + 1].db[j].job)
  {
    RunKeepsInv(r, c, m);
    assert StepAt(r, m, c);
    LateFinishCancels(r.states[m], r.states[m + 1], r.steps[m], r.times[m], c, j);
  }

  /** A late finish at m leaves the job cancelled under its outcome for as long as it is there and not expired. */
  lemma {:induction false} EndedLateStays(r: Run, c: Config, m: nat, k: nat, j: JobId)
    requires IsRun(r, c) && c.maxAttempts >= 1 && m < k < |r.states| && EndedLate(r, m, j)
    requires j in r.states[k].db && r.states[k].db[j].job.state != Expired
    ensures CancelledOtherwise(r.states[k].db[j].job)
  {
    if m + 1 == k {
      EndedLateNow(r, c, m, j);
    } else {
      PresentBetween(r, c, m, k, j);
      LastStepKeepsOtherwise(r, c, k, j);
      EndedLateStays(r, c, m, k - 1, j);
    }
  }

  /**
   In every run, a cancelled job reports another outcome than the cancellation exactly when the worker ended it
   with that outcome after the cancellation had been stored.
   */
  lemma CancelledOtherwiseIff(r: Run, c: Config, k: nat, j: JobId)
    requires IsRun(r, c) && c.maxAttempts >= 1 && k < |r.states|
    requires j in r.states[k].db && r.states[k].db[j].job.state == Cancelled
    ensures r.states[k].db[j].job.outcome != Some(CancelledOutcome) <==> exists m :: 0 <= m < k && EndedLate(r, m, j)
  {
    if m :| 0 <= m < k && EndedLate(r, m, j) {
      EndedLateStays(r, c, m, k, j);
    }
    if CancelledOtherwise(r.states[k].db[j].job) {
      var m := LateFinishBefore(r, c, k, j);
    }
  }

  lemma {:induction false} LateFinishBefore(r: Run, c: Config, k: nat, j: JobId) returns (m: nat)
    requires IsRun(r, c) && c.maxAttempts >= 1 && k < |r.states|
    requires j in r.states[k].db && CancelledOtherwise(r.states[k].db[j].job)
    ensures m < k && EndedLate(r, m, j)
  {
    assert k > 0;
    if j in r.states[k - 1].db && CancelledOtherwise(r.states[k - 1].db[j].job) {
      m := LateFinishBefore(r, c, k - 1, j);
    } else {
      LastStepOtherwiseIff(r, c, k, j);
      m := k - 1;
    }
  }

  // ---------------------------------------------------------------- clients of a running service

  /** The polls of one client for job j, taken at the states `at` of a run, before the job expires. */
  ghost predicate PollsJob(r: Run, j: JobId, at: seq<nat>, polls: seq<ResultPages.Poll>) {
    && |at| == |polls|
    && (forall i :: 0 <= i < |polls| ==> PolledAt(r, j, at[i], polls[i]))
    && (forall i, k :: 0 <= i < k < |polls| ==> at[i] <= at[k])
  }

  /** A poll meets the rows and the state that the run has stored. */
  ghost predicate PolledAt(r: Run, j: JobId, m: nat, p: ResultPages.Poll) {
    && m < |r.states| && j in r.states[m].db && r.states[m].db[j].job.state != Expired
    && Dense(r.states[m].db[j].results)
    && p.log == ResultPages.Log(r.states[m].db[j].results)
    && p.terminal == Terminal(r.states[m].db[j].job.state)
  }

  /** The client follows its cursor, and stops when told that it is complete. */
  ghost predicate FollowsCursor(polls: seq<ResultPages.Poll>) {
    && (forall i :: 0 <= i < |polls| ==> ResultPages.Answered(polls[i], ResultPages.CursorAfter(polls, i)))
    && (forall i :: 0 <= i < |polls| - 1 ==> !(polls[i].response.Delivered? && polls[i].response.complete))
  }

  /** Whatever the service does between the polls, they form a session over a growing log. */
  lemma PollsFormSession(r: Run, c: Config, j: JobId, at: seq<nat>, polls: seq<ResultPages.Poll>)
    requires IsRun(r, c) && c.maxAttempts >= 1 && PollsJob(r, j, at, polls) && FollowsCursor(polls)
    ensures ResultPages.Session(polls)
  {
    forall i | 0 < i < |polls|
      ensures polls[i - 1].log <= polls[i].log
    {
      assert PolledAt(r, j, at[i - 1], polls[i - 1]) && PolledAt(r, j, at[i], polls[i]);
      DeliveryLogGrows(r, c, at[i - 1], at[i], j);
    }
  }

  /** What the client holds after k polls is exactly the stored log up to its place, each row once, in order. */
  lemma {:induction false} ClientHoldsPrefix(r: Run, c: Config, j: JobId, at: seq<nat>, polls: seq<ResultPages.Poll>,
                                             k: nat)
    requires IsRun(r, c) && c.maxAttempts >= 1 && PollsJob(r, j, at, polls) && FollowsCursor(polls)
    requires 0 < k <= |polls|
    ensures PolledAt(r, j, at[k - 1], polls[k - 1])
    ensures var log := ResultPages.Log(r.states[at[k - 1]].db[j].results);
            var n := ResultPages.Reached(polls, k);
            n <= |log| && ResultPages.DeliveredBy(polls, k) == log[..n]
  {
    PollsFormSession(r, c, j, at, polls);
    ResultPages.SessionDelivers(polls, k);
    assert PolledAt(r, j, at[k - 1], polls[k - 1]);
  }

  /**
   A client told that it is complete holds every result that the job has, then and at any later time before expiry.
   */
  lemma {:induction false} CompleteIsFinal(r: Run, c: Config, j: JobId, at: seq<nat>, polls: seq<ResultPages.Poll>,
                                           m: nat)
    requires IsRun(r, c) && c.maxAttempts >= 1 && PollsJob(r, j, at, polls) && FollowsCursor(polls)
    requires polls != [] && polls[|polls| - 1].response.Delivered? && polls[|polls| - 1].response.complete
    requires at[|polls| - 1] <= m < |r.states| && j in r.states[m].db && r.states[m].db[j].job.state != Expired
    ensures Dense(r.states[m].db[j].results)
    ensures ResultPages.DeliveredBy(polls, |polls|) == ResultPages.Log(r.states[m].db[j].results)
  {
    var last := |polls| - 1;
    PollsFormSession(r, c, j, at, polls);
    ResultPages.CompleteMeansAll(polls);
    assert PolledAt(r, j, at[last], polls[last]);
    DeliveryLogGrows(r, c, at[last], m, j);
  }

  lemma LogWithinLimit(results: Results, c: Config)
    requires Dense(results) && SizesOk(results, c)
    ensures forall i :: 0 <= i < |ResultPages.Log(results)| ==> ResultPages.Log(results)[i].bytes <= c.maxItemBytes
  {
    forall i | 0 <= i < |results|
      ensures ResultPages.Log(results)[i].bytes <= c.maxItemBytes
    {
      var row := ResultPages.RowAt(results, i + 1);
    }
  }

  /** No row that a client meets is larger than the configured item limit. */
  lemma PolledWithinLimit(r: Run, c: Config, j: JobId, m: nat, p: ResultPages.Poll)
    requires IsRun(r, c) && c.maxAttempts >= 1 && PolledAt(r, j, m, p)
    ensures forall i :: 0 <= i < |p.log| ==> p.log[i].bytes <= c.maxItemBytes
  {
    RunKeepsInv(r, c, m);
    assert EntryOk(r.states[m].db[j], c);
    LogWithinLimit(r.states[m].db[j].results, c);
  }

  /** With a byte limit of at least the configured item limit, a poll that finds an undelivered row delivers one. */
  lemma ClientProgresses(r: Run, c: Config, j: JobId, at: seq<nat>, polls: seq<ResultPages.Poll>, k: nat)
    requires IsRun(r, c) && c.maxAttempts >= 1 && PollsJob(r, j, at, polls) && FollowsCursor(polls)
    requires k < |polls| && polls[k].lim.maxBytes >= c.maxItemBytes
    ensures polls[k].response.Delivered?
    ensures ResultPages.Reached(polls, k) < |polls[k].log| ==>
              ResultPages.Reached(polls, k + 1) > ResultPages.Reached(polls, k)
    ensures ResultPages.Reached(polls, k) == |polls[k].log| && polls[k].terminal ==> polls[k].response.complete
  {
    PollsFormSession(r, c, j, at, polls);
    PolledWithinLimit(r, c, j, at[k], polls[k]);
    ResultPages.EveryPollProgresses(polls, k, c.maxItemBytes);
  }

  // ---------------------------------------------------------------- such a run exists

  /** The state may be cancelled while the outcome is another: the worker ended the job before it saw the request. */
  lemma CancelledWithOtherOutcome(sub: Submission, other: Outcome, c: Config) returns (r: Run)
    requires c.maxAttempts >= 1 && c.maxRecords >= 1
    ensures IsRun(r, c)
    ensures var last := r.states[|r.states| - 1].db;
            0 in last && last[0].job.state == Cancelled && last[0].job.outcome == Some(other)
  {
    var job := NewJob(sub, 0);
    var running := Started(job, 0);
    var marked := running.(cancelRequested := true);
    r := Run([System(map[], Down, {})], [], []);
    r := RunStarts(r, c);
    r := RunSubmits(r, sub, c);
    r := RunClaims(r, job, c);
    r := RunAttempts(r, running, c);
    r := RunEndsAttempt(r, running, c);
    r := RunCancels(r, running, c);
    r := RunFinishes(r, marked, other, c);
  }

  /** A run that leaves a failure behind: it is stored after the result that settles it, which is then known. */
  lemma FailureLeftBehind(sub: Submission, key: string, failureKey: string, c: Config) returns (r: Run)
    requires c.maxAttempts >= 1 && c.maxRecords >= 1 && key != failureKey
    ensures IsRun(r, c) && r.steps != []
    ensures r.steps[|r.steps| - 1] == StoreResult(key, true, 0, "", {failureKey}, false)
    ensures 0 in Last(r).db && key in Last(r).db[0].results && failureKey in Last(r).db[0].failures
  {
    var job := NewJob(sub, 0);
    var running := Started(job, 0);
    r := Run([System(map[], Down, {})], [], []);
    r := RunStarts(r, c);
    r := RunSubmits(r, sub, c);
    r := RunClaims(r, job, c);
    r := RunAttempts(r, running, c);
    r := RunStores(r, running, key, failureKey, c);
  }

  ghost function Last(r: Run): System
    requires r.states != []
  {
    r.states[|r.states| - 1]
  }

  lemma Extend(r: Run, t: System, step: Step, c: Config) returns (next: Run)
    requires IsRun(r, c) && Next(Last(r), t, step, 0, c)
    ensures IsRun(next, c) && Last(next) == t && next.steps == r.steps + [step]
  {
    next := Run(r.states + [t], r.steps + [step], r.times + [0]);
    forall i | 0 <= i < |next.steps|
      ensures StepAt(next, i, c)
    {
      if i < |r.steps| {
        assert StepAt(r, i, c);
        assert next.states[i] == r.states[i] && next.states[i + 1] == r.states[i + 1];
      } else {
        assert next.states[i] == Last(r) && next.states[i + 1] == t;
      }
    }
  }

  /** A store that holds one job, without rows, under identifier 0. */
  function One(job: Job): Db {
    map[0 := Entry(job, map[], map[])]
  }

  lemma OneIsKept(job: Job, c: Config)
    requires !Terminal(job.state) && job.state != Expired
    ensures ExpireDue(One(job), 0, c) == One(job)
  {
  }

  lemma RunStarts(r: Run, c: Config) returns (n: Run)
    requires IsRun(r, c) && Last(r) == System(map[], Down, {})
    ensures IsRun(n, c) && Last(n) == System(map[], Idle(false), {})
  {
    var d: Db := map[];
    assert Recover(d, 0, c) == d;
    n := Extend(r, System(map[], Idle(false), {}), Start, c);
  }

  lemma RunSubmits(r: Run, sub: Submission, c: Config) returns (n: Run)
    requires IsRun(r, c) && Last(r) == System(map[], Idle(false), {}) && c.maxRecords >= 1
    ensures IsRun(n, c) && Last(n) == System(One(NewJob(sub, 0)), Idle(false), {0})
  {
    var d: Db := map[];
    assert ExpireDue(d, 0, c) == d;
    assert Unclaimed(d, sub);
    assert d[0 := Entry(NewJob(sub, 0), map[], map[])] == One(NewJob(sub, 0));
    n := Extend(r, System(One(NewJob(sub, 0)), Idle(false), {0}), Submit(0, sub, Created(0)), c);
  }

  lemma RunClaims(r: Run, job: Job, c: Config) returns (n: Run)
    requires IsRun(r, c) && job.state == Queued && job.attempts == 0 && Last(r) == System(One(job), Idle(false), {0})
    ensures IsRun(n, c) && Last(n) == System(One(Started(job, 0)), Holding(0, 1, false, Checking), {0})
  {
    OneIsKept(job, c);
    assert FirstQueued(One(job), 0);
    assert WithJob(One(job), 0, Started(job, 0)) == One(Started(job, 0));
    n := Extend(r, System(One(Started(job, 0)), Holding(0, 1, false, Checking), {0}), ClaimNext(Some(0)), c);
  }

  lemma RunAttempts(r: Run, job: Job, c: Config) returns (n: Run)
    requires IsRun(r, c) && Last(r) == System(One(job), Holding(0, 1, false, Checking), {0})
    ensures IsRun(n, c) && Last(n) == System(One(job), Holding(0, 1, false, Attempting), {0})
  {
    n := Extend(r, System(One(job), Holding(0, 1, false, Attempting), {0}), BeginAttempt, c);
  }

  lemma RunEndsAttempt(r: Run, job: Job, c: Config) returns (n: Run)
    requires IsRun(r, c) && Last(r) == System(One(job), Holding(0, 1, false, Attempting), {0})
    ensures IsRun(n, c) && Last(n) == System(One(job), Holding(0, 1, false, Ending(Completed)), {0})
  {
    n := Extend(r, System(One(job), Holding(0, 1, false, Ending(Completed)), {0}), EndAttempt(false, Completed), c);
  }

  lemma RunCancels(r: Run, job: Job, c: Config) returns (n: Run)
    requires IsRun(r, c) && job.state == Running && Last(r).db == One(job)
    ensures IsRun(n, c) && Last(n) == Last(r).(db := One(job.(cancelRequested := true)))
  {
    OneIsKept(job, c);
    assert WithJob(One(job), 0, job.(cancelRequested := true)) == One(job.(cancelRequested := true));
    n := Extend(r, Last(r).(db := One(job.(cancelRequested := true))), Cancel(0, job.scope), c);
  }

  lemma RunFinishes(r: Run, job: Job, other: Outcome, c: Config) returns (n: Run)
    requires IsRun(r, c) && job.state == Running && job.cancelRequested
    requires Last(r) == System(One(job), Holding(0, 1, false, Ending(Completed)), {0})
    ensures IsRun(n, c) && 0 in Last(n).db
    ensures Last(n).db[0].job.state == Cancelled && Last(n).db[0].job.outcome == Some(other)
  {
    var done := FinishedJob(job, Completed, Some(other), [], 0, c);
    assert WithJob(One(job), 0, done) == One(done);
    n := Extend(r, System(One(done), Idle(false), {0}), FinishAs(Some(other), []), c);
  }

  lemma RunStores(r: Run, job: Job, key: string, failureKey: string, c: Config) returns (n: Run)
    requires IsRun(r, c) && job.state == Running && key != failureKey
    requires Last(r) == System(One(job), Holding(0, 1, false, Attempting), {0})
    ensures IsRun(n, c) && n.steps != []
    ensures n.steps[|n.steps| - 1] == StoreResult(key, true, 0, "", {failureKey}, false)
    ensures 0 in Last(n).db && key in Last(n).db[0].results && failureKey in Last(n).db[0].failures
  {
    var start := Entry(job, map[], map[]);
    var row := ResultRow(1, true, 0, "");
    var first := StoredResult(start, key, row, {});
    var second := StoredFailure(first, failureKey, "", c);
    var worker := Holding(0, 1, false, Attempting);
    assert IsLastOrdinal(start.results, 0);
    assert AppendsResult(start, first, key, true, 0, "", {}, true);
    n := RunWrites(r, start, first, worker, StoreResult(key, true, 0, "", {}, true), c);
    n := RunWrites(n, first, second, worker, StoreFailure(failureKey, ""), c);
    n := RunWrites(n, second, second, worker, StoreResult(key, true, 0, "", {failureKey}, false), c);
  }

  /** One write of the worker on its job. */
  lemma RunWrites(r: Run, e: Entry, f: Entry, worker: Worker, step: Step, c: Config) returns (n: Run)
    requires IsRun(r, c) && Last(r) == System(map[0 := e], worker, {0})
    requires worker == Holding(0, 1, false, Attempting)
    requires match step
             case StoreResult(key, content, bytes, body, failureKeys, stored) =>
               bytes == 0 && AppendsResult(e, f, key, content, bytes, body, failureKeys, stored)
             case StoreFailure(failureKey, reason) => f == StoredFailure(e, failureKey, reason, c)
             case _ => false
    ensures IsRun(n, c) && n.steps == r.steps + [step] && Last(n) == System(map[0 := f], worker, {0})
  {
    var db: Db := map[0 := e];
    assert db[0 := f] == map[0 := f];
    n := Extend(r, System(map[0 := f], worker, {0}), step, c);
  }
}
