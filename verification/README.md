# Thorondor: a verified model of its algorithmic core

Thorondor is a self-hosted search, crawl and extraction service. This project models its algorithms and protocols in
Dafny 4.11 and proves what they promise, for all inputs and over all runs.

| area | files |
|---|---|
| shared vocabulary | `Options.dfy`, `Seqs.dfy`, `Words.dfy`, `Texts.dfy` |
| semantic chunking | `Splitter.dfy`, `Grouping.dfy`, `GreedyGrouping.dfy`, `ClusterDp.dfy`, `Feasibility.dfy`, `Documents.dfy`, `Boundaries.dfy`, `ChunkResults.dfy` |
| robots rules | `RobotsMatcher.dfy`, `RobotsOctets.dfy`, `RobotsVerdict.dfy` |
| durable crawl jobs | `JobTables.dfy`, `JobStore.dfy`, `JobProtocol.dfy`, `JobDecisions.dfy`, `JobHistories.dfy`, `ResultPages.dfy` |
| site crawls | `FrontierModel.dfy`, `CrawlFrontier.dfy`, `SiteModel.dfy`, `Coverage.dfy`, `SitemapModel.dfy`, `SiteOperation.dfy` |
| evidence and answers | `Evidence.dfy`, `Assembly.dfy` |
| target watches | `TargetWatch.dfy` |
| structured extraction | `StructuredTables.dfy`, `TableRoundTrip.dfy`, `Trimming.dfy`, `JsonPointers.dfy`, `SchemaContract.dfy`, `SchemaTrails.dfy` |
| dotenv files | `EnvFile.dfy`, `EnvReading.dfy`, `EnvMerge.dfy` |

How the model is built:

- Code that changes state is imperative here too: the two dynamic-programming tables are arrays filled in place, the job
  store, the frontier with its records, the site operation, the robots parser, the table parser, the validator and the
  watch store are classes. Each of their methods is proved against a function on values, and the properties are proved
  of those functions. What the functions decide is also said without them, of the data alone: the lemmas named
  `...Decides`, `...Iff` and `LeftOutOnlyForRoom`.
- Whatever the outside world answers (pages, redirects, robots, safety checks, embeddings, clocks, when a cancellation is
  seen) is a parameter, so every claim holds for all of its answers.
- One transaction of the job store is one atomic step. The worker, the API, a crash at any point and the recovery after
  it interleave freely.
- A token is a word (a maximal run without white space), as the service measures it. Rewards are exact reals.

Where the code and what is said about it differ, the code is followed:

- `min_chunk_size` is described as soft, but it binds every group except the one that ends the document
  (`ClusterDp.DynamicProgrammingChunking`).
- The splitter is said to split at boundaries between words. A text that is one word of more characters than the segment
  size is cut inside it; with blanks and line feeds as white space that is the only case (`Boundaries.SegmentsKeepWords`).
- The robots matcher takes a literal `*` of the target for itself before it tries the pattern's star; the exact targets
  on which it decides the wildcard relation are given by `RobotsMatcher.DecidesIffStarFreeFront`.
- An empty `Disallow` line does not end a block of agents and a crawl delay does, unlike in RFC 9309, sections 2.2 and
  2.2.4 (`RobotsVerdict.EmptyRuleKeepsBlockOpen`, `RobotsVerdict.DelayClosesBlock`). On which files parser and standard
  agree is `RobotsVerdict.SameLinesIffUntorn`, and `RobotsVerdict.SelectsAsStandardIff` for the rules selected.
- Normalising a path is not idempotent (`RobotsOctets.FusionExists`); on which paths it is, is
  `RobotsOctets.IdempotentIffNoFusion`.
- A job may be stored as cancelled with another outcome (`JobHistories.CancelledWithOtherOutcome`), exactly when the worker
  ended it so after the cancellation was stored (`JobHistories.CancelledOtherwiseIff`). A failure that storing a
  result should settle stays exactly when the result's key is known already (`JobProtocol.FailureStaysIffKnown`); a run
  that leaves one behind is `JobHistories.FailureLeftBehind`.
- A URL can be fetched twice (`SiteModel.FetchesTwice`, at concrete addresses `SiteModel.SampleFetchedTwice`), because a
  redirect may free the key it came under; when it does, and when the URL is queued again, is
  `FrontierModel.KeyFreedIffMoves` and `FrontierModel.QueuedAgainIff`.
- Not every value survives a dotenv file (`EnvFile.LineBreakIsLost`); exactly which do is `EnvFile.FileRoundTripIff` and,
  for a rewritten file, `EnvMerge.ReadsBackIff`.

Proofs show their own induction: automatic induction is switched off with `{:induction false}` wherever Dafny would try
it.

## Model

| member | source | states |
|---|---|---|
| Words.CountAppend | semantic-chunking-service/chunking/app.py:42-45 | the service's token measure, the word count, is subadditive and monotone under concatenation: joining can fuse a word across the seam but never adds one |
| Words.CountZeroIffBlank | semantic-chunking-service/chunking/app.py:42-45 | a text has no tokens exactly when it is all white space |
| Words.CountJoin | semantic-chunking-service/chunking/app.py:42-45 | a concatenation of any number of pieces has no more words than the pieces together |
| Splitter.FindBestSeparator | semantic-chunking-service/chunking/recursive_splitter.py:115-127 | the loop, by index: it picks the first separator that is empty or occurs in the text and hands on exactly those after it, or none after the empty one; if there is no such separator the last one stands alone |
| Splitter.BestByIndex | semantic-chunking-service/chunking/recursive_splitter.py:115-127 | so does the recursive choice that specifies it |
| Splitter.SplitWithSeparator | semantic-chunking-service/chunking/recursive_splitter.py:129-152 | the paired regular-expression parts are the pieces of the text, each but the last running through the next separator; an empty separator splits nothing |
| Splitter.PieceEndsAtSeparator | semantic-chunking-service/chunking/recursive_splitter.py:129-152 | every piece stops at its first separator and only the last piece may have none, so no piece is cut too late or too early |
| Splitter.MergeSplits | semantic-chunking-service/chunking/recursive_splitter.py:154-191 | with overlap 0, the packing loop computes the greedy packing of the splits |
| Splitter.PackedIsGreedy | semantic-chunking-service/chunking/recursive_splitter.py:154-191 | each packed chunk takes one split and every further split that still fits, and stops only where the next one does not fit |
| Splitter.PackedSound | semantic-chunking-service/chunking/recursive_splitter.py:154-191 | packing loses nothing, leaves no chunk empty, and keeps every chunk in size when the splits fit |
| Splitter.ForceSplitBySize | semantic-chunking-service/chunking/recursive_splitter.py:211-230 | the character-window loop computes the forced pieces, each ending after the last blank in reach |
| Splitter.ForcedLossless | semantic-chunking-service/chunking/recursive_splitter.py:211-230 | forced pieces concatenate to the text and none is empty |
| Splitter.SplitTextRecursive | semantic-chunking-service/chunking/recursive_splitter.py:81-113 | the recursion with its run of small splits computes the segments that the recursive definition describes |
| Splitter.RunsArePacked | semantic-chunking-service/chunking/recursive_splitter.py:88-113 | how segments come about: a split above the size is cut with the finer separators, or by force without any, and the splits between two such ones are packed together |
| Splitter.SegmentsLossless | semantic-chunking-service/chunking/recursive_splitter.py:81-113 | for any separators and size, segments concatenate to the text and none is empty |
| Splitter.SegmentsBounded | semantic-chunking-service/chunking/recursive_splitter.py:18-37 | when the separators end with the empty one, every segment has at most the configured words, and the result is the same whatever the forced split would do: it is never reached |
| Splitter.SegmentsSound | semantic-chunking-service/chunking/recursive_splitter.py:81-113 | lossless, non-empty and bounded together, for every text and every separator list |
| Splitter.SplitText | semantic-chunking-service/chunking/recursive_splitter.py:61-65 | a text of white space yields no segments, any other text its segments |
| Splitter.SplitTextWithSpans | semantic-chunking-service/chunking/recursive_splitter.py:67-79 | raises exactly on a non-empty text of white space; otherwise the spans are consecutive exact slices that cover the text and carry the segments |
| Boundaries.SegmentsKeepWords | semantic-chunking-service/chunking/recursive_splitter.py:81-127 | with the published separators, for every text whose white space is blanks and line feeds: every segment but the last ends in white space, so no word is cut, if and only if the text has white space or no more characters than a segment may have words |
| Grouping.RewardIsPairwise | semantic-chunking-service/chunking/cluster_semantic.py:443-461 | on a symmetric similarity matrix the half off-diagonal sum that is computed equals the sum over unordered pairs that is meant |
| ClusterDp.EvaluateChunkCandidate | semantic-chunking-service/chunking/cluster_semantic.py:564-588 | one candidate: asks to break exactly when it is over the maximum, and updates both tables exactly when it improves the entry |
| ClusterDp.BreakIsLossless | semantic-chunking-service/chunking/cluster_semantic.py:572-576 | stopping at the first group over the maximum loses no allowed candidate |
| ClusterDp.FillDpTable | semantic-chunking-service/chunking/cluster_semantic.py:542-562 | the nested loops fill a table in which every entry dominates all allowed last groups and is realised by its parent, or is unreachable |
| ClusterDp.TableIsUpperBound | semantic-chunking-service/chunking/cluster_semantic.py:542-588 | no admissible way to tile the first k segments earns more than entry k |
| ClusterDp.TableIsAttained | semantic-chunking-service/chunking/cluster_semantic.py:505-540 | entry k is earned by the admissible grouping that the parents describe |
| ClusterDp.UnreachableIffInfeasible | semantic-chunking-service/chunking/cluster_semantic.py:505-522 | the last entry is minus infinity exactly when no partition meets the bounds, so the dead parent check never fires |
| ClusterDp.DynamicProgrammingChunking | semantic-chunking-service/chunking/cluster_semantic.py:463-540 | for two or more segments: a reward-maximal partition under the bounds when one exists (every group at most the maximum, every group but the last at least the minimum), and the greedy token grouping exactly when none exists |
| GreedyGrouping.GreedyCutUnique | semantic-chunking-service/chunking/cluster_semantic.py:590-615 | the rule 'run until the first refused segment' determines the grouping, so it specifies both greedy loops completely |
| GreedyGrouping.GreedyRunBound | semantic-chunking-service/chunking/cluster_semantic.py:590-615 | a greedy group keeps to the maximum unless it is a single segment |
| GreedyGrouping.GreedyFallbackChunking | semantic-chunking-service/chunking/cluster_semantic.py:590-615 | the fallback loop computes the greedy cut by token count |
| GreedyGrouping.GreedyMergeBySimilarity | semantic-chunking-service/chunking/cluster_semantic.py:655-685 | the similarity loop computes the greedy cut by token count or dissimilar neighbour |
| GreedyGrouping.TokenCutIff | semantic-chunking-service/chunking/cluster_semantic.py:590-615 | a grouping is that cut if and only if each group ends exactly before the first segment that would take it over the maximum |
| GreedyGrouping.SimilarityCutIff | semantic-chunking-service/chunking/cluster_semantic.py:655-685 | a grouping is that cut if and only if each group ends exactly before the first segment that would take it over the maximum or, once the group has the minimum, is less similar to its neighbour than the threshold |
| Feasibility.FeasibleWithRoom | semantic-chunking-service/chunking/cluster_semantic.py:508-516 | with min + s <= max + 1, documents of segments of at most s tokens always have an admissible partition |
| Feasibility.InfeasibleWithoutRoom | semantic-chunking-service/chunking/cluster_semantic.py:579-581 | without that room, some list of segment sizes, no two neighbours of which fit in one segment, has none |
| Feasibility.FeasibleIffRoom | semantic-chunking-service/chunking/cluster_semantic.py:579-581 | so every list of segments of at most s tokens can be partitioned exactly when the configuration has that room, and every list without two neighbours to merge exactly then too |
| Documents.SegmentsAreParagraphs | semantic-chunking-service/chunking/recursive_splitter.py:81-191 | for any such list of sizes the splitter cuts the text made of paragraphs of these sizes into exactly those paragraphs |
| Documents.NeverFallsBackIffRoom | semantic-chunking-service/chunking/cluster_semantic.py:508-516 | so for any bounds and segment size: the optimiser finds an admissible partition of every text the splitter cuts in two or more if and only if the configuration has that room |
| ChunkResults.BuildChunkResults | semantic-chunking-service/chunking/cluster_semantic.py:617-653 | the loop builds one chunk a group from span offsets and skips groups of white space |
| ChunkResults.BuiltIsFaithful | semantic-chunking-service/chunking/cluster_semantic.py:617-653 | any grouping that tiles the segments within the bounds gives ordered, disjoint, exact, non-blank slices within the token maximum that hold every character that is not white space |
| ChunkResults.FallbackChunking | semantic-chunking-service/chunking/cluster_semantic.py:687-713 | the token fallback is faithful in that sense: the chunks of the greedy cut by token count, all marked degraded |
| ChunkResults.GreedySemanticChunking | semantic-chunking-service/chunking/cluster_semantic.py:715-814 | the large-document path is faithful: the chunks of the greedy cut by similarity or, on an embedding failure, of the one by token count, each under its mark |
| ChunkResults.OptimalChunking | semantic-chunking-service/chunking/cluster_semantic.py:165-188 | the optimiser's path: the chunks of a reward-maximal admissible grouping or, when none is admissible, of the greedy cut, under the optimiser's mark |
| ChunkResults.SplitTextWithMetadata | semantic-chunking-service/chunking/cluster_semantic.py:113-189 | end to end in offset mode: nothing for white space; otherwise the splitter's segments, bounded and covering the text, faithful chunks, and on every path the grouping they come from, the strategy they name and whether they are marked degraded; one segment is one chunk |
| ChunkResults.PathDecides | semantic-chunking-service/chunking/cluster_semantic.py:113-189 | which path is taken, in terms of vectors and segment counts alone: token cut and degraded without vectors of the right shape, similarity cut above the segment limit, otherwise a maximal admissible grouping if one exists |
| ChunkResults.PublishedStrategyIsFeasible | semantic-chunking-service/chunking/strategies.py:13-19 | the published strategy always has room, so its documents never fall back |
| ChunkResults.ClientAcceptsAll | orchestrator/clients/chunker_client.py:34-44 | the client accepts the span of every chunk of a faithful result |
| ChunkResults.AcceptedInOrder | orchestrator/clients/chunker_client.py:34-44 | no two accepted spans overlap, and they come in order |
| RobotsMatcher.RestIsDenotes | orchestrator/robots_policy.py:81-108 | the positional form used in the proofs is the declarative wildcard relation of RFC 9309, section 2.2.3 |
| RobotsMatcher.MatchLoop | orchestrator/robots_policy.py:81-108 | the loop with its saved star terminates and answers what its step relation says |
| RobotsMatcher.MatchSound | orchestrator/robots_policy.py:81-108 | on every target, an answer of true is a match of the wildcard relation |
| RobotsMatcher.MatchComplete | orchestrator/robots_policy.py:81-108 | every match is found on a target with no star before its last character |
| RobotsMatcher.StarInFrontHides | orchestrator/robots_policy.py:93-97 | the equality test runs before the star test: a star before the target's last character hides a match from some anchored pattern |
| RobotsMatcher.DecidesIffStarFreeFront | orchestrator/robots_policy.py:81-108 | for every target: the loop decides the relation for all patterns if and only if the target has no star before its last character |
| RobotsOctets.NormalizeOctets | orchestrator/robots_policy.py:46-68 | the octet loop yields the rendering of the path's units, or the error of a negative literal |
| RobotsOctets.NormaliseStarts | orchestrator/robots_policy.py:46-68 | character by character: a literal becomes its unreserved character or its octet in upper-case digits, a character outside ASCII its octets as section 3 of RFC 3629 has them, any other itself, and the rest is normalised for itself; a negative literal is an error |
| RobotsOctets.NormaliseIsIdempotent | orchestrator/robots_policy.py:46-68 | normalising a well-encoded path once is enough |
| RobotsOctets.SameNormalIffSameUnits | orchestrator/robots_policy.py:46-68 | two well-encoded paths normalise alike exactly when they denote the same characters and octets |
| RobotsOctets.IdempotentIffNoFusion | orchestrator/robots_policy.py:46-68 | for every path that can be normalised: normalising twice is normalising once if and only if no percent sign left over fuses with the two characters behind it into a literal that decodes, fails or is spelled otherwise |
| RobotsOctets.FusionExists | orchestrator/robots_policy.py:46-68 | such a path exists, so normalisation is not idempotent on all paths |
| RobotsOctets.RaisesIffNegative | orchestrator/robots_policy.py:46-60 | normalisation fails exactly on paths that hold a percent sign, a minus sign and a digit other than zero in a row |
| RobotsVerdict.Matches | orchestrator/robots_policy.py:77-108 | one rule against one target: pattern normalised, anchor split off, literals counted, then the loop |
| RobotsVerdict.CompileCounts | orchestrator/robots_policy.py:76-87 | a rule compiles exactly when its pattern can be normalised; its specificity is the number of positions that hold no star, the final one left out when it holds a dollar sign, which is also exactly when the rule is anchored |
| RobotsVerdict.MostSpecificRuleDecides | orchestrator/robots_policy.py:130-135 | for compiled rules and a normalised target on which the loop decides, the verdict is that of the most specific rules that hold, allowing on a tie and when none holds (RFC 9309, section 2.2.2), whatever their order |
| RobotsVerdict.AllowsDecides | orchestrator/robots_policy.py:122-135 | the whole answer of a snapshot: everything allowed without a robots file, nothing when it is unreachable, otherwise an error exactly when the path or a pattern cannot be normalised and, on targets where the loop decides, what the rules say whose normalised pattern denotes the target: those with the most literal positions decide, an allowing one first, and all is allowed when none holds |
| RobotsVerdict.RefusalIsBacked | orchestrator/robots_policy.py:122-135 | for every snapshot, rules and path: a refusal comes from an unreachable file or from a disallowing rule whose pattern holds |
| RobotsVerdict.RobotsParser.AddAgent | orchestrator/robots_policy.py:245-249 | a user-agent line joins the open block or begins a new group |
| RobotsVerdict.RobotsParser.AddGroupDirective | orchestrator/robots_policy.py:251-267 | a rule or delay with a value joins the current group and closes its block of agents; one without a value changes nothing |
| RobotsVerdict.RobotsParser.Parse | orchestrator/robots_policy.py:205-222 | the loop over lines builds the groups that the line-by-line definition describes |
| RobotsVerdict.GroupsCollectRules | orchestrator/robots_policy.py:231-267 | for every agent, the rules in the groups naming it are exactly the rule lines that speak to it, in order |
| RobotsVerdict.SelectionByLines | orchestrator/robots_policy.py:269-278 | the rules selected for an agent: its own if any line names it, else those of the star |
| RobotsVerdict.SameLinesIffUntorn | orchestrator/robots_policy.py:231-267 | for every file and agent: the parser gives the agent the rule lines that the grammar of RFC 9309, section 2.2, gives it if and only if no rule line with a value stands in a block torn for that agent: one where only valueless rules, or only delays, part the last line naming it from the last agent line |
| RobotsVerdict.SelectsAsStandard | orchestrator/robots_policy.py:269-278 | on files not torn for the agent they choose, the rules selected are the standard's |
| RobotsVerdict.SelectsAsStandardIff | orchestrator/robots_policy.py:269-278 | on files without two equal rule lines: the rules selected are the standard's if and only if no block is torn for the agent they choose |
| RobotsVerdict.EmptyRuleKeepsBlockOpen | orchestrator/robots_policy.py:251-259 | a rule without a value does not close a block: the next agent's rule is given to the first one too, to which the standard gives none |
| RobotsVerdict.DelayClosesBlock | orchestrator/robots_policy.py:245-267 | a recorded delay closes a block: the first agent loses the rule that the standard gives it |
| JobStore.CrawlJobStore.ExpireDueJobs | orchestrator/crawl_job_store.py:296-334 | in place: ended jobs past retention expire and lose their rows, expired ones past their tombstone go, all others stay |
| JobStore.CrawlJobStore.Claim | orchestrator/crawl_job_store.py:363-423 | a submission replays its live job, conflicts if the request differs, is refused when the table is full, or adds one queued job |
| JobStore.CrawlJobStore.ClaimNext | orchestrator/crawl_job_store.py:494-522 | after expiry the queued job first by creation time and identifier starts and counts an attempt; without a queued job nothing more changes |
| JobStore.CrawlJobStore.RecoverInterrupted | orchestrator/crawl_job_store.py:459-489 | the three updates give every interrupted job one fate: cancelled, failed, or queued again |
| JobStore.RecoveryInThree | orchestrator/crawl_job_store.py:459-489 | the updates in their order are one decision per job, none undoing another |
| JobStore.CrawlJobStore.IncrementAttempt | orchestrator/crawl_job_store.py:527-543 | one more attempt on the named running job, nothing else |
| JobStore.CrawlJobStore.MaxOrdinal | orchestrator/crawl_job_store.py:571-577 | the largest stored ordinal, zero when there is none |
| JobStore.CrawlJobStore.AppendResult | orchestrator/crawl_job_store.py:548-617 | a known key changes nothing, its failures included; a new one gets the next ordinal, removes the failures of its keys and moves the counters |
| JobStore.CrawlJobStore.AppendFailure | orchestrator/crawl_job_store.py:634-681 | a key with a result changes nothing; a new key is recorded and counted, a known one takes the new summary uncounted, and either may add a line to the bounded failure log |
| JobStore.CrawlJobStore.AppendSummary | orchestrator/crawl_job_store.py:686-702 | a bounded list of distinct summaries on the named job |
| JobStore.CrawlJobStore.Finish | orchestrator/crawl_job_store.py:707-747 | the end of a running job, its state forced to cancelled when cancellation was requested |
| JobStore.CrawlJobStore.CancelRequested | orchestrator/crawl_job_store.py:758-795 | a queued job is cancelled at once, a running one is marked, an ended one is left |
| JobProtocol.DenseLast | orchestrator/crawl_job_store.py:571-577 | distinct ordinals in 1..n that are n in number reach n, so the next ordinal is one more than the results |
| JobProtocol.ClampsNeverFire | orchestrator/crawl_job_store.py:594-616 | on a job whose accounts are in order the MAX(0, ..) clamps never take effect |
| JobProtocol.ResultAccounts | orchestrator/crawl_job_store.py:548-617 | storing a result keeps the accounts: keys disjoint, counters equal to rows, ordinals exactly 1 to their number |
| JobProtocol.FailureAccounts | orchestrator/crawl_job_store.py:634-681 | storing a failure keeps the accounts |
| JobProtocol.RecoveryIsGood | orchestrator/crawl_job_store.py:459-489 | recovery moves a job along a legal edge and keeps its entry in order |
| JobProtocol.CancelIsGood | orchestrator/crawl_job_store.py:758-795 | a cancellation moves a job along a legal edge: an ended job is not cancelled, another one is not expired |
| JobProtocol.FinishIsGood | orchestrator/crawl_job_store.py:707-747 | finishing ends a running job on a legal edge; a marked one ends cancelled |
| JobProtocol.FinishedOtherwiseIff | orchestrator/crawl_job_store.py:726-737 | finishing a running job leaves it cancelled under another outcome exactly when it was marked and another outcome is given |
| JobProtocol.CancelsOtherwiseIff | orchestrator/crawl_jobs.py:391-642 | in any step of the system a job comes to be cancelled under another outcome exactly when the worker that holds it finishes it, marked, with an outcome of its own |
| JobProtocol.StepIsGood | orchestrator/crawl_jobs.py:391-460 | any step of worker, API, stop or recovery changes each job it keeps by one legal edge |
| JobProtocol.NextKeepsInv | orchestrator/crawl_jobs.py:391-642 | every step keeps the invariant of the whole system: entries in order, at most one running job, unique keys, the worker's memory in step with the tables |
| JobProtocol.NeverReturns | orchestrator/crawl_job_store.py:363-423 | identifiers stay issued, and one whose job is gone never gets one again |
| JobProtocol.FailureStaysIffKnown | orchestrator/crawl_job_store.py:559-592 | a failure that storing a result should settle stays exactly when the result has been stored before |
| JobDecisions.ReadDecides | orchestrator/crawl_job_store.py:296-334 | expiry leaves a row alone unless it is overdue; an overdue ended job loses rows, key and mark and keeps a tombstone for so long after its deadline, an overdue tombstone is gone |
| JobDecisions.SubmitDecides | orchestrator/crawl_job_store.py:363-423 | a submission is answered with the live job under its key, with a conflict exactly if that has another fingerprint, and with a refusal exactly if there is none and the tables are full |
| JobDecisions.SubmitCreates | orchestrator/crawl_job_store.py:363-423 | otherwise it adds one queued job with nothing done, and changes no other |
| JobDecisions.CancelDecides | orchestrator/crawl_job_store.py:758-795 | in the job's own scope a queued job is cancelled at once with outcome, end time and retention deadline, a running one is marked, and nothing else of either changes |
| JobDecisions.CancelSpares | orchestrator/crawl_job_store.py:758-795 | every other job, and one of another scope or that has ended, is left as a read would leave it |
| JobDecisions.ClaimDecides | orchestrator/crawl_job_store.py:494-522 | the worker takes the queued job first by time and identifier, if there is one, and starts and counts its attempt; all else stays |
| JobDecisions.RecoveryDecides | orchestrator/crawl_job_store.py:459-489 | each running job is cancelled if marked, failed if its attempts are used up, and otherwise queued again; every other job stays |
| JobDecisions.AttemptDecides | orchestrator/crawl_job_store.py:527-543 | after the wait between attempts the held job has one attempt more, and nothing else changes |
| JobDecisions.FinishDecides | orchestrator/crawl_job_store.py:707-747 | a finishing job gets its state, or cancelled if marked, its outcome, at most 32 warnings, its end time and its deadline; its rows and all other jobs stay |
| JobDecisions.ResultDecides | orchestrator/crawl_job_store.py:548-617 | a result under a new key becomes the last row, removes the failures of its keys and moves each counter by what was added and removed; one under a known key changes nothing |
| JobDecisions.FailureDecides | orchestrator/crawl_job_store.py:634-681 | a failure is recorded with its cut summary unless its key has a result, counted if its key is new, and logged unless it is in the log or the log is full |
| JobDecisions.SummaryDecides | orchestrator/crawl_job_store.py:686-702 | a summary is logged so too, and nothing else changes |
| JobHistories.ReachableStates | orchestrator/crawl_jobs.py:391-642 | in every state of every run: at most one running job, attempts bounded, a cancellation mark only on a running job, accounts in order, records bounded |
| JobHistories.JobHistory | orchestrator/crawl_job_store.py:296-333 | over any stretch of any run: ended states change only to expired, the retention deadline is written once, stored results are never lost before expiry |
| JobHistories.PresentBetween | orchestrator/crawl_job_store.py:296-333 | a purged job never comes back |
| JobHistories.CancelIsHonoured | orchestrator/crawl_job_store.py:758-795 | a running job whose cancellation was acknowledged can only end cancelled, through crashes and recoveries |
| JobHistories.QueuedCancelIsFinal | orchestrator/crawl_job_store.py:758-795 | in every run: a queued job cancelled in its scope is cancelled in every later state that holds it until it expires, with the outcome of a cancellation, and never runs |
| JobHistories.ResubmissionReplays | orchestrator/crawl_job_store.py:363-423 | resubmitting under a live key returns the same job or a conflict, and adds nothing |
| JobHistories.CancelledWithOtherOutcome | orchestrator/crawl_job_store.py:726-737 | a run exists in which the state is cancelled while the stored outcome is another |
| JobHistories.CancelledOtherwiseIff | orchestrator/crawl_job_store.py:726-737 | in every run, a cancelled job reports another outcome exactly when the worker ended it with that outcome after the cancellation had been stored |
| JobHistories.FailureLeftBehind | orchestrator/crawl_job_store.py:559-567 | a run exists that ends with a stored result and, beside it, the failure it settles, stored after it |
| JobHistories.DeliveryLogGrows | orchestrator/crawl_job_store.py:548-617 | a job's delivery log only grows at its end and is final once the job has ended, until it expires |
| ResultPages.LogHoldsAll | orchestrator/crawl_job_store.py:833-876 | the log by ordinal holds exactly the stored rows |
| ResultPages.BuildResultPage | orchestrator/crawl_job_store.py:801-831 | the loop takes as many rows as both limits allow, counts their bytes, and says whether more follow and whether one row alone is too large |
| ResultPages.Results | orchestrator/crawl_jobs.py:342-389 | one request: refused for an unknown cursor, or answered with the next stretch of the log, its cursor and its completion mark |
| ResultPages.SessionDelivers | orchestrator/crawl_jobs.py:342-389 | following the cursor while results are appended, the client holds exactly the log up to its place: each row once, in order |
| ResultPages.CompleteMeansAll | orchestrator/crawl_jobs.py:375-388 | a client told that results are complete holds every result of an ended job |
| JobHistories.PollsFormSession | orchestrator/crawl_jobs.py:342-389 | polls of one unexpired job, taken at any states of any run, are a session over a growing log |
| JobHistories.ClientHoldsPrefix | orchestrator/crawl_jobs.py:342-389 | whatever the service does between polls, a client that follows its cursor holds exactly the stored results up to its place, each once, in order |
| JobHistories.CompleteIsFinal | orchestrator/crawl_jobs.py:375-388 | told that it is complete, it holds every result the job has then and at any later time before expiry |
| JobHistories.ClientProgresses | orchestrator/crawl_job_store.py:801-831 | with a byte limit of at least the store's limit on one item, every poll is answered, delivers a row while one is left, and completes once the job has ended |
| CrawlFrontier.CrawlFrontier.Discover | orchestrator/crawl_policy.py:195-241 | on objects: merge into the record that has the key, omit at the limit, or add a record that is filtered or admitted and queued |
| CrawlFrontier.CrawlFrontier.RecordFiltered | orchestrator/crawl_policy.py:273-296 | a URL that cannot be normalised is recorded without a key, or omitted |
| CrawlFrontier.CrawlFrontier.Pop | orchestrator/crawl_policy.py:298-299 | the head of the queue is taken, nothing else changes |
| CrawlFrontier.CrawlFrontier.Mark | orchestrator/crawl_policy.py:356-368 | an ending state is entered at most once, with its reason |
| CrawlFrontier.CrawlFrontier.ReconcileFinal | orchestrator/crawl_policy.py:301-323 | a fetched record is rejected, merged into the record that has its final URL, or moved to its new key |
| CrawlFrontier.CrawlFrontier.MergeFinalRecord | orchestrator/crawl_policy.py:341-354 | sources and depth go to the existing record, the visited one fails as a duplicate, a queued one is fetched in its place |
| CrawlFrontier.CrawlFrontier.CancelQueued | orchestrator/crawl_policy.py:370-375 | every record still queued is cancelled and the queue emptied |
| FrontierModel.DiscoverKeeps | orchestrator/crawl_policy.py:195-241 | discovery keeps the frontier's invariant: every record but invalid ones under its own key, legal lives, policy on admitted records, no repeats in the queue, nothing lost, the limit |
| Coverage.DiscoverDecides | orchestrator/crawl_policy.py:195-241 | what becomes of a sighting, field by field: a known key takes over its source, a smaller depth and missing dates; a new one is queued, or filtered with its reason; without room it is only counted |
| FrontierModel.ReconcileKeeps | orchestrator/crawl_policy.py:301-323 | reconciliation keeps the invariant, and frees the hand or leaves the record in it |
| FrontierModel.MergeFinalKeeps | orchestrator/crawl_policy.py:341-354 | merging two records keeps the invariant even when the other one still waits in the queue |
| FrontierModel.MoveKeeps | orchestrator/crawl_policy.py:318-322 | moving a record to a free key keeps every record under its own key |
| FrontierModel.CancelQueuedKeeps | orchestrator/crawl_policy.py:370-375 | cancelling what is queued keeps the invariant and leaves nothing waiting |
| FrontierModel.KeysDistinct | orchestrator/crawl_policy.py:195-241 | no two indexed records have the same deduplication key |
| FrontierModel.KeyFreedIffMoves | orchestrator/crawl_policy.py:301-323 | reconciling frees the record's key if and only if, before the call, the final URL is accepted, its key is not held by another record and it is another key |
| FrontierModel.QueuedAgainIff | orchestrator/crawl_policy.py:301-323 | after that a sighting of the old URL is queued once more if and only if the record moves so, there is room and the sighting is admitted |
| FrontierModel.CountsBalance | orchestrator/site_pipeline.py:740-758 | once nothing waits: discovered = filtered + admitted and admitted = queued = fetched + failed + cancelled, over all records |
| SiteModel.VisitKeeps | orchestrator/site_pipeline.py:613-649 | a page visit ends its record, keeps the frontier's invariant and the breadth-first layers, and leaves every record that had ended exactly as it was, depth included |
| Coverage.VisitDecides | orchestrator/site_pipeline.py:613-649 | what a visit decides: the record fails with its reason, is merged into the one that has its final URL, or is fetched under that URL; then exactly the page's links are taken in one level deeper, if wanted |
| SiteModel.PopLayered | orchestrator/crawl_policy.py:298-299 | the head of the queue is the shallowest record waiting: it goes on with the layer or begins the next |
| SiteModel.MergeLayered | orchestrator/crawl_policy.py:341-354 | merging a redirect into a record still queued keeps the layers, because that record leaves the queue's order |
| SiteModel.TurnKeeps | orchestrator/site_pipeline.py:651-669 | every turn of the page loop keeps its invariant and moves its measure, or ends it |
| SiteModel.LoopStep | orchestrator/site_pipeline.py:651-669 | the loop stays within the page budget from its start to any turn |
| Coverage.TurnDecides | orchestrator/site_pipeline.py:651-669 | what a turn decides: the loop ends with nothing queued or, its budget spent, with all that waits cancelled; otherwise the head is dropped if it has ended and visited if not |
| SiteModel.TwiceFetchedMeansMoved | orchestrator/crawl_policy.py:318-322 | two fetches of one key mean that one of their records has moved to another key since |
| SiteModel.VisitMovesIff | orchestrator/site_pipeline.py:613-649 | a visit leaves its record under another key if and only if the page has content and its final URL is accepted under a free key that is another one |
| SiteModel.FetchesTwice | orchestrator/site_pipeline.py:651-669 | a run of the page loop that fetches one URL twice, for any policy and any three addresses that it accepts, leaves as they are and keys differently: a page redirects and links back to where it was |
| SiteModel.SampleFetchedTwice | orchestrator/site_pipeline.py:651-669 | such a run at three concrete addresses of one site |
| SiteModel.CrawlKeepsPromise | orchestrator/site_pipeline.py:651-669 | at every point of every run of the loop: within the page budget, every fetch of another record, allowed, in order of depth |
| SiteModel.SeedKeeps | orchestrator/site_pipeline.py:588-606 | the seed's record is filtered for good or waits alone |
| Coverage.SeedTakenIff | orchestrator/site_pipeline.py:588-606 | the seed is taken, fetched and alone, if and only if its address is admitted by the policy, the safety check and robots and there is room for a record |
| Coverage.SeedFailedDecides | orchestrator/site_pipeline.py:486-504 | a seed without content leaves exactly one record, failed with its code or filtered with the reason, or none if there is no room |
| SiteModel.GatherKeeps | orchestrator/site_pipeline.py:680-692 | links admitted before the page loop keep the invariant and the layers and touch nothing that was there |
| Coverage.AdmitAllTook | orchestrator/site_pipeline.py:289-348 | a list of links is taken in completely and nothing else is: each address is known afterwards or the frontier is full, each new admissible one waits at its depth, and every new key was listed |
| SiteOperation.SiteOperation.Admit | orchestrator/site_pipeline.py:289-348 | safety and robots are asked only for a new URL that the policy admits while there is room |
| SiteOperation.SiteOperation.PrepareSeed | orchestrator/site_pipeline.py:576-611 | every start: the seed's record fetched, refused by the policy, or failed when the seed has no content, each with the exact frontier it leaves, and no frontier entries for an unsafe seed |
| SiteOperation.SiteOperation.RecordSeedFailure | orchestrator/site_pipeline.py:486-504 | a seed without content leaves one record, failed, or filtered by the policy |
| SiteOperation.SiteOperation.QueueEntries | orchestrator/site_pipeline.py:422-445 | an index queues the sitemaps it lists that were not tried, one level deeper; a page list admits its links at depth 0 |
| SiteOperation.SiteOperation.LoadSitemaps | orchestrator/site_pipeline.py:453-471 | the sitemap loop ends for every web, within its budgets, and unless a budget is used up or it was cancelled nothing that a root or an index lists was passed over; every page that is listed was taken in, and only those |
| SitemapModel.Tries | orchestrator/site_pipeline.py:372-445 | trying an address keeps the account of the loading: each address tried once, the pages of every list tried taken in, and every root and every entry of every index tried dealt with or still queued |
| SitemapModel.NothingQueued | orchestrator/site_pipeline.py:453-471 | so with nothing queued every root and every listed sitemap was tried, unless it is no address or lies too deep |
| SiteOperation.SiteOperation.DiscoverMore | orchestrator/site_pipeline.py:680-694 | search results, then the seed's links if the depth allows, each list taken in completely |
| SiteOperation.SiteOperation.ReconcileFinal | orchestrator/site_pipeline.py:506-532 | a final URL the policy refuses is never asked about |
| SiteOperation.SiteOperation.ProcessPage | orchestrator/site_pipeline.py:613-649 | one visit on the objects is the visit on the value, and logs a fetch exactly when one is made |
| SiteOperation.SiteOperation.Turn | orchestrator/site_pipeline.py:651-669 | one turn of the loop on the objects is the turn on the value |
| SiteOperation.SiteOperation.CrawlPages | orchestrator/site_pipeline.py:651-669 | the page loop makes one of the runs of its model and ends for every web although its queue grows: within the page budget, each fetch of another record, allowed by the policy, in order of depth |
| SiteOperation.SiteOperation.Run | orchestrator/site_pipeline.py:680-694 | a whole run ends, whatever the seed turns out to be, within all its budgets, and unless cancelled nothing waits. A run that is never cancelled runs to its end if and only if the seed is a page and is taken. Its page loop then began with everything it was shown: the pages of all sitemaps tried, the search results and the seed's links, each recorded while there was room, the new admissible ones waiting |
| SiteOperation.SiteOperation.CountStates | orchestrator/site_pipeline.py:740-758 | the counter loop counts every state of every record |
| SiteOperation.ReportBalances | orchestrator/site_pipeline.py:740-758 | the reported counts balance when nothing waits |
| SiteOperation.RunAndReport | orchestrator/site_pipeline.py:680-758 | from an unused operation to its report: the counts balance unless the run was cancelled |
| Evidence.TruncateIsExact | orchestrator/assembly.py:10-46 | a cut item is still the slice of its document that its span says, or no longer claims to be |
| Evidence.CutDecides | orchestrator/assembly.py:10-58 | a cut keeps what is left of so many characters without white space at the end, its words counted and its span and identifier shortened with it or dropped, and is none exactly if that is blank |
| Evidence.TruncateSizeMonotone | orchestrator/pipeline.py:805-828 | a longer cut is no smaller on the wire, digit widths of token count and end index included |
| Evidence.CutsOrdered | orchestrator/assembly.py:49-58 | proper cuts are missing below some length and grow in size from there on, which is what the search needs |
| Evidence.SearchPrefix | orchestrator/pipeline.py:809-828 | the binary search finds what trying every prefix from the longest down would find |
| Evidence.FitEvidenceItem | orchestrator/pipeline.py:805-828 | an item that fits is left alone, another is cut to its longest fitting prefix, if there is one |
| Evidence.FittedDecides | orchestrator/pipeline.py:805-828 | an item is left alone exactly if it fits; otherwise it is the longest cut that fits, and none only if no cut does |
| Evidence.BoundEvidence | orchestrator/pipeline.py:831-854 | the loop keeps items in rank order under both limits and counts what it omits |
| Evidence.EvidenceIsBounded | orchestrator/pipeline.py:831-854 | the kept list obeys every limit, its bytes are those of the array it makes, and each item and byte offered is kept or reported omitted |
| Evidence.KeptArePicked | orchestrator/pipeline.py:831-854 | the kept items are the fitted ones at rising positions |
| Evidence.LeftOutOnlyForRoom | orchestrator/pipeline.py:831-854 | an item is kept if and only if some cut of it fits, fewer than 50 were kept before it, and its bytes, with a comma, fit behind those of the items kept before it |
| Evidence.KeptAreExact | orchestrator/pipeline.py:831-854 | exact items stay exact slices of their own documents |
| Assembly.EndsMatchStarts | orchestrator/assembly.py:66-69 | the n-th word end has exactly n word starts before it |
| Assembly.BudgetCut | orchestrator/assembly.py:61-69 | a cut item has exactly the budget's number of words; an item is dropped exactly when it exceeds a budget below one or its token count is not its word count; exact items stay exact |
| Assembly.CiteKeeps | orchestrator/assembly.py:72-98 | citing a chunk keeps numbers and document keys matched one to one, and yields a citation of its document |
| Assembly.Assemble | orchestrator/assembly.py:129-154 | the loop takes items in rank order until the limit on passages, each cut to what is left of the budget |
| Assembly.AssemblyKeepsPromises | orchestrator/assembly.py:129-154 | citation ids are 1 to their number and match documents one to one, every passage refers to its own document's citation which lists its span once, and tokens and passages stay within their limits |
| Assembly.PassagesFollowRank | orchestrator/assembly.py:129-154 | passages come from rising positions of the ranking, keep their scores, are prefixes of their items, and are exact where the items were |
| Assembly.BudgetDecides | orchestrator/assembly.py:61-69 | an item within the budget is taken whole, and another exactly if the budget has a word and its token count is its word count: then its first words, as many as the budget has, with span and identifier shortened or dropped |
| Assembly.LeftOutOnlyForRoom | orchestrator/assembly.py:129-154 | an item becomes a passage, in its place, if and only if the passages before it leave room for it within both limits, and is cut to exactly what they leave |
| Assembly.SameCitationIff | orchestrator/assembly.py:72-98 | two passages carry the same citation number if and only if they come from one document: one identifier or, for want of it, one normalised address |
| TargetWatch.TargetStore.PersistRefresh | orchestrator/fetch_pipeline.py:861-884 | a refresh is judged against the decoded baseline, and only pages and gone pages are recorded; other watches are untouched |
| TargetWatch.TargetStore.CachedWatch | orchestrator/fetch_pipeline.py:701-713 | a read without refresh judges the stored snapshot against itself or its baseline |
| TargetWatch.TargetStore.Happen | orchestrator/fetch_pipeline.py:861-884 | whatever happens to a watch next (refresh, read, loss of its entry), the store and the answer are what the history of its events says |
| TargetWatch.BaselineIsLastFound | orchestrator/fetch_pipeline.py:670-698 | after any history the decoded baseline is the last found observation since the snapshot was last lost |
| TargetWatch.FiresOnRise | orchestrator/target_watch.py:272-318 | the condition is met exactly when the desired state is reached from a found observation that was not it, or, with an expected state, by a change from the expected one |
| TargetWatch.ReadsNeverFire | orchestrator/fetch_pipeline.py:701-713 | cached, coalesced and not-modified reads never report the condition met |
| TargetWatch.ChangeTellsHistory | orchestrator/target_watch.py:293-318 | new, same, changed and removed say exactly how the refresh stands to the last found observation |
| TargetWatch.FiredCountsRises | orchestrator/target_watch.py:272-318 | over any history the condition is reported met exactly as often as it comes to hold along the found observations |
| TargetWatch.ObservedIs | orchestrator/fetch_pipeline.py:646-663 | what is observed of a found target: its text, and the attributes that the watch names, empty where it has none |
| TargetWatch.MatchesIsStateMatches | orchestrator/target_watch.py:258-269 | a state is matched exactly when the attribute or text it names, folded, is the expected one or holds it as a slice |
| TargetWatch.ReportTellsHistory | orchestrator/target_watch.py:272-318 | what refreshes and reads report beside the change, read off the history: the resolution, the current and the previous observation |
| StructuredTables.StructuredParser.HandleStartTag | orchestrator/structured_extraction.py:172-219 | a start tag on the parser's fields is the machine's start step |
| StructuredTables.StructuredParser.HandleEndTag | orchestrator/structured_extraction.py:225-246 | an end tag closes the innermost open element of its name and what it stood for |
| StructuredTables.StructuredParser.EndCell | orchestrator/structured_extraction.py:304-326 | the open cell joins its row or, at the cap, is counted as omitted |
| StructuredTables.StructuredParser.EndRow | orchestrator/structured_extraction.py:328-339 | the open row joins its table or, at the cap, all its cells become omitted |
| StructuredTables.StructuredParser.EndTable | orchestrator/structured_extraction.py:341-362 | the innermost table is kept, dropped with its cells counted, or had none |
| StructuredTables.StructuredParser.Finish | orchestrator/structured_extraction.py:364-369 | every table still open is ended, innermost first |
| StructuredTables.FinishRowBalances | orchestrator/structured_extraction.py:328-339 | ending a row moves cells between draft, counter and omissions without losing one |
| StructuredTables.FinishTableAccounts | orchestrator/structured_extraction.py:341-362 | ending a table keeps the accounts |
| StructuredTables.StepAccounts | orchestrator/structured_extraction.py:172-258 | any tag event keeps the accounts: counter = retained cells, begun = retained + omitted + open, caps hold |
| StructuredTables.EveryCellAccounted | orchestrator/structured_extraction.py:304-369 | for any tags, nested or unbalanced: cells begun = cells in finished tables + omitted, and the caps on cells, rows and tables hold |
| StructuredTables.FinishedStay | orchestrator/structured_extraction.py:341-362 | for any tags: a table that is finished is never changed nor dropped afterwards |
| TableRoundTrip.WrittenTableIsRead | orchestrator/structured_extraction.py:172-362 | round trip: a visible table within the caps, written as tags and text, is read as exactly that table, cells in order with text, spans and header marks, wherever it stands, and nothing else of the parser changes |
| TableRoundTrip.HiddenTableIsSkipped | orchestrator/structured_extraction.py:172-246 | a table written inside a hidden element leaves the parser as it was |
| Trimming.TrimTakesRoom | orchestrator/fetch_pipeline.py:450-487 | every trim strictly lowers what can still be trimmed |
| Trimming.TrimIsTrimmed | orchestrator/fetch_pipeline.py:450-487 | a trim drops the last link, row, document or all model data, in that order, and counts it; what stays is a prefix of what was there |
| Trimming.BoundFetchResult | orchestrator/fetch_pipeline.py:490-508 | the loop trims the largest extraction until the result fits or nothing is left to trim, and ends |
| Trimming.BoundFetchResults | orchestrator/fetch_pipeline.py:511-517 | the budget, less the envelope, is shared evenly |
| Trimming.BoundKeeps | orchestrator/fetch_pipeline.py:490-508 | the loop stops only when the result fits or nothing in it can be trimmed; kept plus omitted is unchanged for links, tables and documents |
| Trimming.BoundIsTrimRun | orchestrator/fetch_pipeline.py:450-508 | bounding takes one item at a time from the first largest extraction that has one, by the fixed order of its parts, as long as the result is too large and no longer |
| Trimming.CellsSurviveTrimming | orchestrator/fetch_pipeline.py:450-508 | from tags to trimmed response: cells shown plus items reported omitted are the cells begun |
| JsonPointers.TokenRoundTrip | orchestrator/schema_contract.py:149-150 | decoding an escaped name as RFC 6901, section 4, has it gives the name back, so escaping is injective |
| JsonPointers.TokenHasNoSlash | orchestrator/schema_contract.py:149-150 | an escaped name holds no slash |
| JsonPointers.TokenSpells | orchestrator/schema_contract.py:149-150 | a name is escaped character by character: tilde, slash, or itself |
| JsonPointers.ScalarFields | orchestrator/schema_contract.py:238-262 | the explicit-stack loop returns exactly the first max_fields leaves of the recursive preorder traversal |
| JsonPointers.LeavesInOrder | orchestrator/schema_contract.py:238-262 | each field listed is the scalar in some place of the value with the pointer to that place, and the places come in document order |
| JsonPointers.FieldIffHeld | orchestrator/schema_contract.py:238-262 | a field is listed if and only if the value holds that scalar at that pointer |
| JsonPointers.PointersDistinct | orchestrator/schema_contract.py:238-262 | distinct leaves have distinct pointers, for every value whose objects have distinct names |
| SchemaContract.Validator.Visit | orchestrator/schema_contract.py:198-236 | the recursive validator appends a value's failures in order as far as the list has room |
| SchemaContract.Validator.Validate | orchestrator/schema_contract.py:188-192 | the result is the first 32 of all failures |
| SchemaContract.NoFailureIffConforms | orchestrator/schema_contract.py:198-236 | there is no failure exactly when the value is of the schema, said without paths |
| SchemaContract.CappedIffConforms | orchestrator/schema_contract.py:194-196 | capping never turns an invalid value into a valid one |
| SchemaTrails.FailureIffFound | orchestrator/schema_contract.py:198-236 | a failure is reported if and only if, along some way into the value, the value reached fails the schema reached in that way, and it stands at the pointer of that way |
| EnvFile.FindComment | thorondor_cli/envfile.py:45-65 | the loop with its three flags finds the first hash outside quotes at the start or after white space |
| EnvFile.ParseText | thorondor_cli/envfile.py:78-89 | the loop over lines yields the assignments in order, later ones overriding, or raises |
| EnvReading.CommentDecides | thorondor_cli/envfile.py:45-65 | a comment starts at the first hash that stands at the start or after white space and outside quotes, read as states of a scan; what stays is the text before it without white space at the end |
| EnvReading.AssignmentsDecide | thorondor_cli/envfile.py:78-89 | parsing raises exactly if some line is malformed; otherwise exactly the last assignment to each key stands |
| EnvFile.NoCommentInside | thorondor_cli/envfile.py:45-65 | inside a quoted value no hash is taken for a comment, and the quote ends where printing ended it |
| EnvFile.DecodeEscape | thorondor_cli/envfile.py:68-75 | decoding the escapes of an ASCII value gives it back |
| EnvFile.LineRoundTrip | thorondor_cli/envfile.py:119-128 | a printed entry parses as that entry, for valid keys and values that have no line break and are ASCII or need no quotes |
| EnvFile.FileRoundTrip | thorondor_cli/envfile.py:78-89 | a printed file parses to exactly the entries printed, in order |
| EnvFile.BreakNeverReturns | thorondor_cli/envfile.py:68-89 | a value with a line break never comes back: its key is read with a value that has none, or not at all, or parsing raises |
| EnvFile.LineBreakIsLost | thorondor_cli/envfile.py:119-128 | such a loss, for every valid key: the value that is one line feed reads back as one quotation mark |
| EnvFile.FileRoundTripIff | thorondor_cli/envfile.py:78-89 | for any entries with valid, distinct keys: the printed file parses to them if and only if every value has no line break and is ASCII or needs no quotes |
| EnvMerge.Merge | thorondor_cli/envfile.py:155-163 | the two loops merge new values, except over preserved non-blank ones, and fill in template defaults |
| EnvMerge.ListKeys | thorondor_cli/envfile.py:131-141 | template keys first, then the file's, then new ones, each once |
| EnvMerge.Rewrite | thorondor_cli/envfile.py:144-174 | the whole rewrite, from the file's text to its new text |
| EnvMerge.MergedGet | thorondor_cli/envfile.py:155-163 | every key ends up with the new value unless the old one is preserved, else the old one, else the template's |
| EnvMerge.OrderedKeysAre | thorondor_cli/envfile.py:131-141 | the keys listed are distinct, begin with the template's, and are exactly those that have a value |
| EnvMerge.WritingIsIdempotent | thorondor_cli/envfile.py:144-168 | writing the same values again changes neither values nor order |
| EnvMerge.WriteReadsBack | thorondor_cli/envfile.py:144-174 | the file reads back as what was merged, key by key, and writing the same values once more leaves it as it is |
| EnvMerge.ReadsBackIff | thorondor_cli/envfile.py:144-174 | for any file that parses and any values and template with valid keys: the rewritten file reads back as what was merged if and only if every merged value has no line break and is ASCII or needs no quotes |

## Left out

- ChunkResults.SplitTextWithMetadata: the mode without offsets is not modelled (overlap, `preclean`, searching segment positions again), nor are section headings; overlap is 0 and the segment size at least 1, as every published strategy has them.
- JobProtocol.NextKeepsInv: work in threads that outlives a cancelled task is not modelled, nor are SQLite, its write-ahead log, corruption and schema upgrades.
- JobStore.CrawlJobStore.RecoverInterrupted: the number of rows it reports is not modelled.
- ResultPages.Results: the base64 form of the cursor is an opaque encoding of job and ordinal; the bounds on `max_items` and `max_bytes` that requests are checked for appear as their being at least 1.
- RobotsOctets.NormalizeOctets: hexadecimal digits outside ASCII, which the integer parser also accepts, are not modelled.
- RobotsVerdict.RobotsParser.Parse: cutting a line into field and value, sitemap lines, the maximum crawl delay and the cache of snapshots are not modelled; lines arrive cut.
- SiteOperation.SiteOperation.Run: a cancellation seen in the middle of a page visit is not modelled; it discards the frontier, so nothing is reported of it. Politeness delays, warnings, the cap on reported records and the count of skipped non-HTTP links are not modelled.
- FrontierModel.DiscoverKeeps: URL normalisation, deduplication keys and path rules are parameters of the policy.
- Coverage.AdmitAllTook: an address is normalised by the crawl and again by the frontier; whether a new one waits is stated of addresses on which the second time changes nothing, as a URL normaliser is meant to work, and left open of others.
- Evidence.BoundEvidence: the ranking that precedes it, here and in `Assembly.Assemble`, is its input order; a character's wire size is a parameter.
- EnvFile.FileRoundTripIff: numeric and named escapes are a parameter of the decoder.
- StructuredTables.EveryCellAccounted: links, JSON-LD blocks and how cell text is joined and bounded are not modelled; drafts on the table stack are values that are replaced, not shared objects.
- Trimming.BoundKeeps: for model-extracted data the omission count becomes the number of fields, at least 1, and is stated so rather than conserved.
- SchemaContract.Validator.Visit: the check that a schema is acceptable is not modelled; schemas arrive accepted, and integers too large to be a float are taken as finite.
- TargetWatch.FiresOnRise: locating the target in a page is not modelled; folding of text and names is a parameter.
- Floating-point rounding, the reward cache, numpy and the embedding service: rewards are exact and embeddings are inputs.
- HTTP clients and routes, the MCP server, the terminal interface, deployment, HTML, XML and JSON parsing, the URL library, metrics and logging.
- Hashes for documents, evidence and submissions stand for what they hash.
- Search-result ranking heuristics, settings validation and metadata priority tables.
