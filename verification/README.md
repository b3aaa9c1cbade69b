# Verification of the slopshell core engines

This project models the stateful engines of slopshell in Dafny and proves what callers rely on. Each file covers
one engine; concurrency is modelled as a state machine over its atomic steps, loops and objects as methods and
classes, and I/O as inputs.

- `RateLimiter.dfy`: the Gmail quota token bucket. A run is any interleaving of the lock holds of any number of
  waiters and polls, with a clock that does not go back. The class beside it does what the Go object does, with
  `rounds` for what happens during a caller's sleeps, and `Bursts` says what each operation gets.
- `Cache.dfy`, `CacheKey.dfy`: the LLM response cache as a table, a map in front of it and a bounded hit queue that a
  drain empties, with `HitCounts` for what becomes of each hit; and the strings that its keys are hashes of.
- `TurnModel.dfy`, `TurnLoops.dfy`: a turn of the app-server protocol. `TurnModel` says on the log itself what a turn
  returns and shows, and `DeltaText` what its deltas are in characters; `TurnLoops` has the two read loops and the
  session object, and proves that both loops do it. The text that the two loops repeat word for word (the answer, an
  item, the text that follows) is one method each. `TurnText` says, in terms of the messages alone, when a turn ends
  and what it returns and tells.
- `StatusBroadcast.dfy`, `TrainingJobs.dfy`, `LineReader.dfy`: the hotword manager. The broadcast has one step for
  each channel operation, so that receives fall between any two of them; the training machine has one step for each
  status update of each thread. `HotwordTraining` joins the two.
- `TriageRules.dfy`, `TriageBayes.dfy`, `TriageDecisions.dfy`: the mail triage. Scores are exact reals, and sums of
  logarithms are products; `SpamOdds` says what a score is worth in counts of documents.
- `Pandoc.dfy`: pages of a pandoc source, and the maps between lines and page positions in exact reals.
- `ExchangeSearch.dfy`, `Imap.dfy`: searching mail. The mailbox does not change during a search.
- `Archive.dfy`: text and file names of materialised artifacts.
- `Text.dfy`, `Order.dfy`, `Basics.dfy`: strings as bytes and what trimming them means
  (`Trimming`), sorted lists, runs of a machine, and small facts they share.

Some expected laws turn out to hold only under a condition, and the project proves which one:

- A negative count overfills the token bucket (`CapacityHoldsIffCostsNonNegative`, `NegativeCountIffNegativeCost`),
  although callers still get no more than the rate allows (`GrantsInAnyWindowBounded`).
- The sleep of a waiter is rounded down, so that its first retry fails unless nothing was rounded away
  (`ComputedSleepIsTight`).
- An `Invalidate` can be undone by later calls when its statement fails and the row was live, and only then
  (`InvalidateIsUndoneIff`, `ComesBackIff`).
- A sender rule and a domain rule can disagree on a message when their keys differ but fold alike
  (`AgreementIff`, `FoldedDomainsDisagree`, with the program's own lists in `ProgramRulesDisagree`); for lower-case
  ASCII keys they never do (`MatchingRulesAgree`).
- A rule can trash protected mail (`ProtectedIsTrashIff`), and protected flagged mail can leave the inbox
  (`FlaggedStaysUnless`).
- The last lines of pages with more than a million lines do not read back (`PageReadsBackIff`).
- Exchange upper bounds with a fraction of a second lose messages (`AdmissionIsCompleteIff`, `SearchIsCompleteIff`).
- IMAP ids of folders with a colon in the name are never parsed back (`MessageIdRoundTripIff`), and ids with leading
  zeros are not printed back (`PrintsBackIff`).
- Calendar text with a control character is written as it stands, which the standard does not allow
  (`EscapedTextReadsBack`).
- A search without a restriction finds a match exactly when it is on the first page of a folder (`FoundIffOnFirstPage`,
  `SecondPageIsMissed`).
- A search that trusts the restriction returns messages out of time when the lower bound has a fraction of a second or
  the exclusive upper bound has none (`SearchIsSoundIff`, `AddsNothingMeans`).
- A response stored over an old row is gone after the next opening (`StoredSurvivesReopeningIff`).
- A delta can begin inside a character (`DeltaIsWholeIff`, `AccentIsSplit`).
- Any call for a positive amount can be kept waiting forever by others (`StarvesIff`).
- One more positive document with a token can lower what the token counts for, because it also adds to the total
  (`LearningRaisesFactorIff`, `KnownTokensRaiseFactorIff`, `LearningCanLowerFactor`).
- A page of an IMAP folder panics when its end does not fit 64 bits (`SearchFolderPage`).

## Model

| member | source | states |
|---|---|---|
| TokenBucket.LevelIsSmallestAllowance | internal/email/ratelimiter.go:48-80 | just before any lock hold, the refilled level is at most what every earlier window leaves over, and equals one of them |
| TokenBucket.TokensAreTightestWindow | internal/email/ratelimiter.go:48-80 | after event k of any interleaving the tokens are the minimum over all earlier events j of max + rate*(t_k - t_j) minus what was granted from j to k |
| TokenBucket.GrantedExactlyWhenNoWindowOverdrawn | internal/email/ratelimiter.go:57-68 | a request is granted exactly when no window ending at it would be overdrawn |
| TokenBucket.AdmitsExactlyConformingTraffic | internal/email/ratelimiter.go:57-68 | a run grants all its attempts if and only if their demand fits every window: the limiter admits all conforming traffic and nothing else |
| TokenBucket.GrantsInAnyWindowBounded | internal/email/ratelimiter.go:48-80 | callers get at most max + rate*(t - s) in any time window [s, t], polls, retries and negative requests included |
| TokenBucket.LevelStaysInRange | internal/email/ratelimiter.go:68-80 | without negative requests the level stays between 0 and the maximum in every run |
| TokenBucket.LevelIsNeverNegative | internal/email/ratelimiter.go:57-80 | the level never falls below zero, whatever the sign of the requests |
| TokenBucket.CapacityHoldsIffCostsNonNegative | internal/email/ratelimiter.go:53-80 | requests of given costs keep the level within the maximum at all times, however they are timed, exactly when none of the costs is negative |
| TokenBucket.OversizedNeverGranted | internal/email/ratelimiter.go:59-68 | a request that costs more than the whole bucket is never granted in any run |
| TokenBucket.OnlyGrantsMatter | internal/email/ratelimiter.go:71-87 | a run and the run without its polls and failed attempts leave the same level, whatever the sign of the requests: polling changes nothing |
| TokenBucket.RefillTwice | internal/email/ratelimiter.go:71-80 | refilling at s and then at t is refilling at t, whatever the level |
| TokenBucket.SleeperGrantedIff | internal/email/ratelimiter.go:59-66 | left alone, a waiter that sleeps d seconds is granted exactly when the inflow covers what was missing |
| TokenBucket.ComputedSleepIsTight | internal/email/ratelimiter.go:60 | the computed sleep is rounded down to a millisecond: the retry at its end succeeds exactly when nothing was rounded away, and one millisecond more always suffices |
| RateLimiting.RateLimiter.constructor | internal/email/ratelimiter.go:31-40 | a full bucket at the given maximum, 15000 if that is not positive |
| RateLimiting.NegativeCountIffNegativeCost | internal/email/ratelimiter.go:42-53 | a call asks for a negative cost exactly when its count is negative, whatever the operation |
| RateLimiting.RateLimiter.Refill | internal/email/ratelimiter.go:71-80 | the fields become the refilled bucket |
| RateLimiting.RateLimiter.Tokens | internal/email/ratelimiter.go:82-87 | a poll returns the refilled level and does nothing else |
| RateLimiting.RateLimiter.AcquireN | internal/email/ratelimiter.go:48-69 | the call adds exactly its own attempts to the interleaving, returns at the first one that is served, and is served by no earlier one; what it costs is in Burst and Bulk |
| RateLimiting.RateLimiter.Wait | internal/email/ratelimiter.go:55-68 | the wait loop against any lock holds of others during its sleeps: which attempt is granted, and the bucket it leaves |
| Bursts.Burst | internal/email/ratelimiter.go:10-69 | of any number of single calls at one instant on a fresh limiter the k-th is served exactly when k times the cost of the operation fits the maximum, with each cost written out, from 1 for labels to 100 for a send |
| Bursts.DefaultBurst | internal/email/ratelimiter.go:10-69 | with the default maximum these are the first 3000, 300, 1500, 150 or 15000 calls |
| Bursts.Bulk | internal/email/ratelimiter.go:42-69 | one call for a count is served at once exactly when the count times the cost written out fits the maximum |
| RateLimiting.OversizedCallNeverServed | internal/email/ratelimiter.go:59-66 | a call for more than the bucket holds sleeps forever, whatever the others do |
| Starvation.CrowdKeepsWaiting | internal/email/ratelimiter.go:53-69 | for any start and wake-ups of a call there are other calls, one before each attempt, after which none of its attempts is served |
| Starvation.StarvesIff | internal/email/ratelimiter.go:53-69 | a call of any operation can be kept waiting forever exactly when its count is positive: whenever it starts and however long it sleeps, others with calls of labels.list can leave too little at every attempt |
| CacheModel.MemoryOnlyHoldsLiveRows | internal/llmcache/cache.go:110-261 | over every run of calls and drains, with any statement allowed to fail, each entry in memory has a live row with the same content, tool calls, finish reason and model |
| CacheModel.HealthyRunsAreExact | internal/llmcache/cache.go:110-261 | without failures or truncated loads the keys in memory are exactly the live keys |
| CacheModel.LoadTakesTheNewest | internal/llmcache/cache.go:229-248 | a load that meets more live rows than it may read takes as many as it may, none older than one it leaves |
| CacheModel.InvalidateRecentTakesTheNewest | internal/llmcache/cache.go:181-203 | InvalidateRecent(n) takes exactly min(n, live) rows out of the live set, none older than a survivor, and changes nothing else in the table |
| CacheModel.InvalidationSticks | internal/llmcache/cache.go:128-216 | a key whose row is dead stays out of memory until a successful Store of that key, whatever fails in between |
| CacheModel.ComesBackIff | internal/llmcache/cache.go:74-261 | in every reachable state of an open cache a key can be in memory later on without being stored again exactly when it has a live row, however many rows there are |
| CacheModel.InvalidateIsUndoneIff | internal/llmcache/cache.go:170-261 | in every reachable state an Invalidate can be undone by later calls, without a Store of the key, exactly when its statement failed and the row was live |
| CacheModel.FailedInvalidateComesBack | internal/llmcache/cache.go:170-203 | after an Invalidate whose statement fails, one InvalidateRecent of other rows and its reload bring the key back: an example |
| CacheModel.LookupReturnsLastStore | internal/llmcache/cache.go:110-248 | a stored response is what every later lookup returns, over reloads and reopenings, as long as each call spares it in the sense of ResponseStaysIff |
| CacheModel.ResponseStaysIff | internal/llmcache/cache.go:128-248 | a response in memory stays there unchanged over a call other than a Store of its key exactly when the call does not invalidate the key and any reload gets as far as its row |
| CacheModel.SurvivesReopeningIff | internal/llmcache/cache.go:74-106 | a live row is in memory after a restart exactly when the cleanup leaves it and the load gets as far as it |
| CacheModel.StoredSurvivesReopeningIff | internal/llmcache/cache.go:74-155 | a response stored just now is answered after a restart with a complete load exactly when its row is at most 90 days old or the cleanup fails, where a row that was stored over keeps its age |
| CacheModel.HitsConservedInEveryRun | internal/llmcache/cache.go:110-125 | found lookups are drained, queued, dropped or lost hits, the queue never exceeds 256, and each row counts its opening hits plus its drained ones, even across Store and invalidation |
| HitCounts.WorkingWritesCount | internal/llmcache/cache.go:99-106 | over every run a drain step or a Close whose writes work loses nothing: each row gains exactly the hits of its key that leave the queue |
| HitCounts.DrainedRow | internal/llmcache/cache.go:255-261 | in every run the oldest queued hit has a row; a write that works adds one to that row and sets its time, and one that fails leaves the table as it was |
| HitCounts.StepCounts | internal/llmcache/cache.go:110-261 | what each call does to the hits of a key: a found lookup is queued, or dropped exactly when the queue holds 256; all others leave them alone |
| HitCounts.HitsAreLookups | internal/llmcache/cache.go:110-261 | between two openings a row and the queue gain exactly the found lookups of its key that were queued, less the failed writes |
| HitCounts.HitsSinceOpening | internal/llmcache/cache.go:110-261 | so with no failed write the count of a row is its count after opening plus the queued lookups of its key that are no longer queued |
| CacheModel.CloseLosesNothing | internal/llmcache/cache.go:99-106 | after Close the queue is empty, and a hit is lost only in a failed write, as WorkingWritesCount says |
| LlmCache.Cache.constructor | internal/llmcache/cache.go:74-97 | opening cleans old rows and loads the live ones, as the machine says |
| LlmCache.Cache.LoadAll | internal/llmcache/cache.go:229-248 | memory gains the scanned rows of the load and nothing else; false when the query fails |
| LlmCache.Cache.Lookup | internal/llmcache/cache.go:110-125 | returns the entry in memory and queues the hit, or drops it when the queue is full |
| LlmCache.Cache.Store | internal/llmcache/cache.go:128-155 | upserts the row first and then the entry; a failed statement changes nothing |
| LlmCache.Cache.Invalidate | internal/llmcache/cache.go:170-177 | removes the entry first and then marks the row; a failed statement leaves the row live |
| LlmCache.Cache.InvalidateRecent | internal/llmcache/cache.go:181-203 | marks the newest rows, and reloads memory only if any was affected |
| LlmCache.Cache.InvalidateAll | internal/llmcache/cache.go:206-216 | empties memory and marks every row |
| LlmCache.Cache.DrainHit | internal/llmcache/cache.go:255-261 | one queued hit leaves the queue as the machine says; in terms of the rows this is DrainedRow |
| LlmCache.Cache.Close | internal/llmcache/cache.go:99-106 | drains the whole queue |
| CacheKey.KeyRoundTrip | internal/llmcache/key.go:18-32 | every request, even one whose model name contains newlines, can be read back from what BuildKey hashes |
| CacheKey.IntentRoundTrip | internal/llmcache/key.go:40-59 | the same for what BuildIntentKey hashes |
| CacheKey.KeyImageInjective | internal/llmcache/key.go:18-32 | different messages, tools, model or thinking flag give different pre-images |
| CacheKey.IntentImageInjective | internal/llmcache/key.go:40-59 | different messages or model give different pre-images |
| CacheKey.KindsDisjoint | internal/llmcache/key.go:26-59 | the two kinds of key never have the same pre-image |
| CacheKey.ReadFieldAfterWrite | internal/llmcache/key.go:27-28 | length prefixes delimit a field whatever bytes its body holds |
| TurnLoops.ComputeSuffixDelta | internal/appserver/client.go:539-551 | the delta is what follows the longest common prefix with the previous text |
| TurnLoops.ExtractFileChangePath | internal/appserver/client.go:449-456 | the first of file, path and filename that is not blank, trimmed |
| TurnLoops.ClientMeetsLog | internal/appserver/client.go:298-447 | for every log the client loop stops at the first message that fails the turn, or that is not an approval, a response or an agent item and comes at or after both response and completion; its outcome, events and cancelled approvals are those stated on the log |
| TurnLoops.SessionMeetsLog | internal/appserver/session.go:267-421 | the same for the session loop, with its extra events and the token counts it leaves |
| TurnLoops.SessionAgreesWithClient | internal/appserver/session.go:267-421 | for every log and request id the two loops read equally many messages, cancel the same approvals, end with the same turn id, text, file changes or error, and show the same events apart from context_usage and context_compact |
| TurnLoops.OnItem | internal/appserver/client.go:361-389 | what a completed item other than an agent message adds: a changed file, and an event if it has a type |
| TurnLoops.ShowText | internal/appserver/client.go:424-447 | new non-blank text is shown once with its delta; the loop ends when response and completion have both been seen |
| TurnLoops.ClientOnMessage | internal/appserver/client.go:307-446 | one pass of the client loop against its specification |
| TurnLoops.ClientReadTurn | internal/appserver/client.go:298-447 | the whole client loop: the contract of ClientMeetsLog for the values it returns; which text that is, TurnReturnsText says |
| TurnLoops.WaitForResponse | internal/appserver/client.go:281-296 | the first message with the awaited id decides, those before it are dropped, and the loop fails only when there is none |
| TurnText.TurnReturnsText | internal/appserver/client.go:298-447 | for every log, both loops stop at the first message that settles the turn, that is, one that is neither an answer, an approval request nor an agent's item and has answer and completion before it or is one; they return the last text that is not blank without the white space around it, the last id that is not blank, and the changed files in order |
| TurnText.TurnReportsError | internal/appserver/client.go:337-422 | the first error before that ends both loops with its trimmed text; an error notification that is blank or a printed nil is none |
| TurnText.TurnWithoutTextFails | internal/appserver/client.go:437-445 | a settled turn in which all texts are blank fails for want of a text |
| TurnText.TurnNeedsMore | internal/appserver/client.go:298-306 | a log that neither settles the turn nor reports an error is read to its end |
| TurnText.ClientTells | internal/appserver/client.go:307-445 | a client with a listener tells of each message it reads once and in order: approval requests, start, items but the agent's with their type, completion, and the error at the end |
| TurnText.DoneIsReturned | internal/appserver/client.go:400-445 | the shortest turn that says Done. and a newline returns Done. |
| TurnLoops.Session.constructor | internal/appserver/session.go:72-130 | an open session has used the ids 1 and 2, so that its first turn is request 3 as the client's is |
| TurnLoops.Session.AllocId | internal/appserver/session.go:495-498 | ids are handed out in order, none twice |
| TurnLoops.Session.ExtractUsage | internal/appserver/session.go:425-459 | a count is replaced by the first one that is not 0, if it is positive, and reported once any is known |
| TurnLoops.Session.OnBody | internal/appserver/session.go:327-397 | one message of the session loop that is neither an approval nor the response |
| TurnLoops.Session.OnMessage | internal/appserver/session.go:276-420 | one pass of the session loop against its specification |
| TurnLoops.Session.ReadTurn | internal/appserver/session.go:267-421 | the whole session loop: the contract of SessionMeetsLog for the values it returns and the fields it leaves; which text that is, TurnReturnsText says |
| TurnLoops.Session.SendTurn | internal/appserver/session.go:206-258 | the error cases and their effect: an id is used exactly when a request is attempted, a failed send or turn closes the session for good, missing input does not; otherwise the reply is what the log says |
| TurnModel.SessionShowsClientEvents | internal/appserver/session.go:267-421 | dropping context_usage and context_compact from a session's event stream gives the client's, at every prefix of the log |
| TurnModel.TextsAreChained | internal/appserver/client.go:424-434 | consecutive assistant_message events differ and each delta is the right one for the message before |
| TurnModel.ReturnedTextWasShown | internal/appserver/client.go:424-445 | a turn that ends well returns the trimmed last text that is not blank, which is also the last assistant_message event |
| TurnModel.DeltasSpellTheResult | internal/appserver/client.go:424-434 | if messages only ever extend, the concatenated deltas are the returned text |
| TurnModel.DeltaRebuilds | internal/appserver/client.go:539-551 | a text is a prefix of the previous one followed by the delta, with the longest such prefix |
| DeltaText.DeltaIsWholeIff | internal/appserver/client.go:539-551 | in UTF-8 a delta is made of whole characters exactly when the first characters in which the texts differ do not begin with the same byte, and is then what follows the shared characters |
| DeltaText.AccentIsSplit | internal/appserver/client.go:539-551 | from an e with an acute accent to one with a grave accent the delta is one continuation byte |
| Trimming.TrimSpaceIs | internal/appserver/client.go:400-404 | trimming takes nothing but whole white-space characters off both ends, and leaves a text that neither begins nor ends with one |
| Trimming.TrimSpaceUnique | internal/appserver/client.go:400-404 | and any text so described is what trimming leaves |
| Trimming.BlankIff | internal/appserver/client.go:400-404 | a text counts as empty exactly when it is a concatenation of white-space characters |
| TurnModel.CountsAreTaken | internal/appserver/session.go:425-459 | of the counts that a turn reports the first that is not 0 is taken, if it is positive: input, prompt and total tokens, and maximum or context window |
| StatusBroadcast.ReceivedInOrder | internal/hotwordtrain/manager.go:275-300 | under all interleavings of publish, receive, subscribe and unsubscribe a subscriber receives statuses in strictly increasing order of publication, and at most one is buffered |
| StatusBroadcast.NoStatusGivenUp | internal/hotwordtrain/manager.go:286-300 | the last default is never taken and nothing is sent on a closed channel |
| StatusBroadcast.LatestIsThere | internal/hotwordtrain/manager.go:153-165 | after any run with a Subscribe that no Unsubscribe of the same id follows, whenever no publication is under way, the channel holds the last of the published statuses or the subscriber has received it last |
| StatusBroadcast.OnlyUnsubscribeEnds | internal/hotwordtrain/manager.go:153-165 | after any run an open channel is exactly one that was subscribed and not unsubscribed since; the next action opens it exactly if it subscribes it, and only its own Unsubscribe closes it |
| StatusBroadcast.LatestIsCounted | internal/hotwordtrain/manager.go:275-284 | statuses are numbered by how often something was published, and a subscriber has received as many as it has received actions |
| StatusBroadcast.ClosedChannelIsLeftAlone | internal/hotwordtrain/manager.go:159-164 | once unsubscribed, a channel gets nothing more |
| StatusBroadcast.PublisherNeverWaits | internal/hotwordtrain/manager.go:281-300 | a publisher always has a next step, whatever the subscribers do, and each step brings it nearer to the end |
| StatusBroadcast.StepKeepsInv | internal/hotwordtrain/manager.go:139-165 | each step keeps the invariant behind these results |
| LineReader.ReadLines | internal/hotwordtrain/manager.go:369-410 | however the output is cut into reads, the reported lines are those of the whole of it, an unterminated last line included; nothing is reported without a listener |
| LineReader.ShownIs | internal/hotwordtrain/manager.go:388-392 | a line w + t + v, with w and v white space and t neither beginning nor ending with any, is reported as t, and not at all if t is empty |
| LineReader.TakeLines | internal/hotwordtrain/manager.go:376-395 | the complete lines in the buffer are reported and what follows the last newline is kept |
| LineReader.LinesOfPieces | internal/hotwordtrain/manager.go:376-406 | the lines are the trimmed non-blank newline-separated pieces of the output, in order |
| LineReader.PiecesUnique | internal/hotwordtrain/manager.go:376-406 | an output can be cut into newline-free pieces in one way only |
| TrainingModel.OneJobAtATime | internal/hotwordtrain/manager.go:205-223 | however starts and jobs interleave, at most one training thread is alive and the status is running exactly then |
| TrainingModel.HistoryIsOrdered | internal/hotwordtrain/jobs.go:146-348 | over every run of the machine training runs do not overlap, progress never falls within one, and nothing follows its end |
| TrainingModel.ProgressIsPercent | internal/hotwordtrain/manager.go:306-314 | in every run progress lies between 0 and 100 and is 100 exactly at the end of a job; the first status is idle, and a job is completed only from running |
| TrainingModel.StepKeepsInv | internal/hotwordtrain/jobs.go:146-348 | each start and each status update keeps the invariant behind these results |
| TrainingModel.PathIsARun | internal/hotwordtrain/jobs.go:146-348 | whatever statuses a thread sets on its own are a run of the machine |
| HotwordTraining.WatcherSeesRunsInOrder | internal/hotwordtrain/manager.go:153-165 | a watcher of the training sees runs one after the other, with progress that never falls in a run and nothing after its end |
| HotwordTraining.WatcherIsUpToDate | internal/hotwordtrain/manager.go:275-300 | one that has watched, has not stopped since and has received all there is has seen the current status last |
| TrainingManager.Manager.Advance | internal/hotwordtrain/manager.go:275-284 | setting a status that the thread may set next keeps all that it has set a path of the machine |
| TrainingManager.Manager.Start | internal/hotwordtrain/manager.go:205-223 | a start is accepted exactly when no job is running, and then sets the queued status |
| TrainingManager.Manager.Update | internal/hotwordtrain/jobs.go:326-335 | sets a running status with the given stage and progress |
| TrainingManager.Manager.Fail | internal/hotwordtrain/jobs.go:337-348 | sets the failed status |
| TrainingManager.Manager.LogLines | internal/hotwordtrain/jobs.go:173-182 | one status for each printed line |
| TrainingManager.Manager.RunTraining | internal/hotwordtrain/jobs.go:146-213 | exactly the statuses of the job in order, by which of its steps fail: a path of the machine from queued to its end, which is completed exactly when nothing failed |
| TrainingManager.Manager.RunPipeline | internal/hotwordtrain/jobs.go:235-324 | the same for the pipeline with all its stages and failures |
| RuleModel.RulesAreUnordered | internal/mailtriage/model.go:593-646 | the rule list depends only on the multiset of reviews: neither their order nor that of a map matters |
| RuleModel.SenderAgreesWithDomain | internal/mailtriage/model.go:610-635 | a sender's rule and its domain's rule prescribe the same action, and the domain's has at least its support |
| RuleModel.MatchingDomainsFoldAlike | internal/mailtriage/model.go:466-480 | if a sender rule and a domain rule match the same message, the sender key's domain and the domain key fold alike |
| RuleModel.MatchingRulesAgree | internal/mailtriage/model.go:462-488 | rules with lower-case ASCII keys that match the same message prescribe the same action |
| RuleModel.AgreementIff | internal/mailtriage/model.go:462-488 | a sender key and a domain key agree for all reviews exactly when the key's domain is the domain key |
| RuleModel.FoldedDomainsDisagree | internal/mailtriage/model.go:468-480 | domains that differ only in characters that fold alike can be learned with different actions and still match the same message, for any folding and any lists of allowed keys |
| RuleKeys.ProgramRulesDisagree | internal/mailtriage/model.go:648-680 | the program's own key lists and the folding of the long s admit such rules: the sender key noreply@ſ.qodo.ai and the domain key s.qodo.ai |
| RuleKeys.LearnedKeys | internal/mailtriage/model.go:648-680 | every learned sender key looks like a machine's and names no protected topic, every learned domain key names one of three domains, and no rule trashes mail from tugraz.at |
| TriageRules.IncrementNested | internal/mailtriage/distill.go:101-108 | the nested counts are those of one more pair |
| TriageRules.Tally | internal/mailtriage/distill.go:144-151 | the total of a key's counts, and its most frequent action, the first by name among equals, in whatever order the map is walked |
| TriageRules.CollectDominant | internal/mailtriage/distill.go:141-179 | exactly the statistics that reach support and purity, the best supported first |
| TriageRules.PureStats | internal/mailtriage/distill.go:153-159 | with purity 1 these are the keys on which all reviews agree |
| TriageRules.NormalizeReviews | internal/mailtriage/distill.go:84-99 | reviews without an action are dropped, the others are cleaned, in order |
| TriageRules.CleanKeeps | internal/mailtriage/distill.go:84-99 | a review with an action is kept with its cleaned sender and action, at the place that the kept ones before it leave |
| RuleModel.RuleSaysWhatReviewsSay | internal/mailtriage/model.go:593-646 | a learned rule prescribes what every review of its sender or domain says, with support of at least 4 or 8 |
| TriageRules.CountReviews | internal/mailtriage/model.go:598-609 | the counts by sender and by domain are those of the reviews |
| TriageRules.BuildRules | internal/mailtriage/model.go:593-646 | the result is the sorted list of exactly the allowed keys with unanimous reviews and support of at least 4 for senders and 8 for domains |
| TriageRules.MatchRule | internal/mailtriage/model.go:462-488 | a rule that matches and that no matching rule precedes, or none if no rule matches |
| TriageRules.SenderRuleMeansNoDomainRule | internal/mailtriage/model.go:462-488 | in the sorted list the first match is a sender rule only if no domain rule matches |
| TriageRules.AnyMatchWillDo | internal/mailtriage/model.go:462-488 | for lower-case ASCII keys every matching rule prescribes what the first one does |
| BayesModel.CountsAreRight | internal/mailtriage/model.go:73-101 | after any documents each count is the number of documents that have the token, at most the number of documents |
| BayesModel.VocabularyIsWhatWasCounted | internal/mailtriage/model.go:92 | the vocabulary is the union of the counted tokens |
| BayesModel.TotalsAreSums | internal/mailtriage/model.go:93-99 | each total is the sum of its side's token counts |
| BayesModel.TrainingIsUnordered | internal/mailtriage/model.go:73-101 | the state depends only on the multiset of documents |
| BayesModel.LikelihoodsSumToOne | internal/mailtriage/model.go:108-124 | the smoothed likelihoods over a non-empty vocabulary sum to 1 for each class |
| BayesModel.FlippedScore | internal/mailtriage/model.go:103-137 | swapping the labels turns every score into one minus the score, and scores lie in [0, 1] |
| SpamOdds.ScoreIsOdds | internal/mailtriage/model.go:103-137 | with both classes present, score to one minus score is as the ratio of the class counts times, for each distinct clean token, the ratio of count + 1 to total + vocabulary in the two classes, all counted on the documents; above one half exactly when this is above 1; 1 or 0 past the cut-off |
| SpamOdds.ScoreOfNothing | internal/mailtriage/model.go:104-106 | one half when a class has no documents |
| SpamOdds.WinIsSpam | internal/mailtriage/model.go:103-137 | one positive document with win and one negative one with hello give win the score two thirds |
| SpamOdds.FactorGrows | internal/mailtriage/model.go:121-124 | a token counts the more for the positive class the more positive documents have it, all else equal |
| SpamOdds.LearningRaisesFactorIff | internal/mailtriage/model.go:73-124 | the exact condition under which one more positive document with a token does not lower what the token counts for |
| SpamOdds.KnownTokensRaiseFactorIff | internal/mailtriage/model.go:73-124 | for a document whose tokens are all known this is that the positive total is at least the count of the token times the number of its tokens |
| SpamOdds.LearningCanLowerFactor | internal/mailtriage/model.go:73-124 | a further spam message with win and hello lowers what win counts for: an example |
| TriageBayes.CleanTokensAre | internal/mailtriage/model.go:81-88 | the clean tokens are the lower-cased and trimmed ones that are not empty |
| TriageBayes.Model.Add | internal/mailtriage/model.go:73-101 | one document adds its set of clean tokens to one side; an empty token list changes nothing |
| TriageBayes.Model.ScoreOf | internal/mailtriage/model.go:103-137 | the score of the distinct clean tokens, which is the one that ScoreIsOdds states for the documents learned |
| TriageDecisions.ProtectedIsTrashIff | internal/mailtriage/hybrid.go:68-192 | a message on a protected topic is classified trash exactly when a rule says so |
| TriageDecisions.FlaggedStaysUnless | internal/mailtriage/hybrid.go:14-192 | without a rule, flagged mail is inbox for every training and every answer, except that protected flagged mail is archived when the semantic classifier answers trash |
| TriageDecisions.UrgentStaysUnless | internal/mailtriage/hybrid.go:156-192 | without a rule, mail with an action score of 0.75 stays in the inbox, with the one exception of protected mail that the semantic classifier would trash |
| TriageDecisions.MoreConfidentAnswerPrevails | internal/mailtriage/hybrid.go:156-192 | where a semantic answer prevails over the local decision, the same answer prevails with more confidence |
| TriageDecisions.ReviewReasons | internal/mailtriage/engine.go:79-102 | the reasons are exactly those that apply, each once, and none in the shadow phase |
| TriageDecisions.EvaluateOne | internal/mailtriage/engine.go:34-60 | both answers are normalised, the reasons are exactly those that apply, shadowed is what the shadow phase has, reviewed what has a reason, and applied what the policy lets be acted on alone: neither inbox nor unknown, confident enough, not a manual action and with no audit that disagrees |
| TriageDecisions.EvaluatedOnce | internal/mailtriage/engine.go:34-102 | what EvaluateOne promises determines the evaluation up to the order of its reasons |
| TriageDecisions.Evaluate | internal/mailtriage/engine.go:20-60 | the first failing call ends the evaluation, otherwise message i is evaluated by the merged policy on its own answer and its own audit |
| TriageDecisions.FallbackIsReviewed | internal/mailtriage/hybrid.go:167-176 | under default thresholds in the auto-apply phase the protected-topic fallback to archive is always sent to review |
| TriageDecisions.RuleIsApplied | internal/mailtriage/hybrid.go:52-63 | under default thresholds in the auto-apply phase a rule's action is applied without review exactly when the policy does not keep it manual and no audit that has to agree answers otherwise or with a label |
| TriageDecisions.TrashedUnseenIff | internal/mailtriage/hybrid.go:68-154 | without rules and a semantic classifier, what is trashed without review is exactly unflagged, unprotected mail with a spam score of 0.97 and an action score below 0.72, if trash is no manual action and no audit that has to agree answers otherwise or with a label |
| TriageDecisions.FactorsDecide | internal/mailtriage/hybrid.go:68-154 | without rules and a semantic classifier, which mail is copied, archived and trashed, in terms of its flag, its topic and its five scores |
| TriageDecisions.CopiedUnseenIff | internal/mailtriage/hybrid.go:113-122 | what is copied without review: the threshold of 0.90 in terms of the skim and action scores |
| TriageDecisions.ArchivedUnseenIff | internal/mailtriage/hybrid.go:123-132 | what is archived without review: the threshold of 0.93 in terms of the reference and action scores |
| TriageDecisions.AskedIff | internal/mailtriage/hybrid.go:14-50 | the semantic classifier is asked exactly when no rule matches and the mail is protected or the local confidence is below 0.97 |
| TriageDecisions.AnswerPrevailsIff | internal/mailtriage/hybrid.go:156-192 | when an answer that differs from the local decision prevails |
| TriageDecisions.StayingConfidence | internal/mailtriage/hybrid.go:68-154 | how sure the local decision is of mail that stays in the inbox, in hundredths |
| TriageDecisions.MovingConfidence | internal/mailtriage/hybrid.go:68-154 | and of mail that it copies, archives or trashes |
| TriageDecisions.RuleConfidence | internal/mailtriage/hybrid.go:52-63 | a rule decides with 0.995 whatever the semantic classifier would say |
| TriageDecisions.AnsweredConfidence | internal/mailtriage/hybrid.go:156-192 | the confidence after an answer: the higher one in agreement, 0.85 of it after the protected fallback, at least 0.92 for mail with an action score of 0.75, else that of the side that prevails |
| TriageDecisions.UnconfiguredReviewsAll | internal/mailtriage/engine.go:24-34 | without a configured phase everything is reviewed, and disagreement of an audit is a reason |
| TriageDecisions.UnconfiguredThresholds | internal/mailtriage/engine.go:28-34 | without configured thresholds confidence is low below 0.90 for copies, 0.93 for archiving and 0.98 for trash |
| TriageDecisions.ConfiguredCounts | internal/mailtriage/engine.go:24-34 | in the auto-apply phase the configured thresholds, manual actions and audit setting count |
| Pandoc.BuildPages | internal/document/pandoc.go:119-158 | the pages are the pagination of the file; a read error gives none |
| Pandoc.ParseSourceMap | internal/document/pandoc.go:34-62 | a map exists exactly for a path that is not blank, at least one line per page and no read error |
| Pandoc.PaginationUnique | internal/document/pandoc.go:119-165 | a file has one pagination, so the contract of BuildPages determines its result |
| Pandoc.PagesAreOrdered | internal/document/pandoc.go:119-165 | pages are numbered from 1, at most linesPerPage long, ordered and disjoint |
| Pandoc.TextIsOnOnePage | internal/document/pandoc.go:119-165 | every line that is no break is on exactly one page |
| Pandoc.BreakIsAlone | internal/document/pandoc.go:132-138 | a break is on a page only when it has the page to itself, as the first line or after a break or a full page |
| Pandoc.BreakIs | internal/document/pandoc.go:167-175 | a break is one of five markers in any capitals with any white space around it |
| Pandoc.PositionIs | internal/document/pandoc.go:81-99 | a line is 72 points in, and as far down the 792 points of its page as it is down the lines of the page |
| Pandoc.PdfLocationFinds | internal/document/pandoc.go:81-117 | a line has a position exactly when a page has it, and then that page and its top |
| Pandoc.SourceLineFinds | internal/document/pandoc.go:64-79 | a page number has a page exactly from 1 to the number of pages |
| Pandoc.PageReadsBackIff | internal/document/pandoc.go:73-97 | a page reads back all its lines exactly when it has no more than a million |
| Pandoc.RoundTrip | internal/document/pandoc.go:64-99 | up to a million lines per page, SourceLocation of a PDFLocation is the same line |
| Pandoc.PositionsIncrease | internal/document/pandoc.go:81-99 | later lines have later positions, by page and then by height |
| Pandoc.LineIsOnPage | internal/document/pandoc.go:69-78 | any height, even off the page, leads to a line of the page |
| Pandoc.LineContainsPosition | internal/document/pandoc.go:73-78 | a height on the page leads to the line whose top is at or above it and within one line height |
| ExchangeFilter.MatchMessage | internal/email/exchange_ews_provider.go:1004-1060 | accepts exactly the messages that meet every condition |
| ExchangeFilter.MatchesEach | internal/email/exchange_ews_provider.go:1004-1060 | a message matches exactly when it meets each of the eleven conditions on its own |
| ExchangeFilter.TextIsFoundIff | internal/email/exchange_ews_provider.go:1004-1060 | a text is looked for in subject, body, sender name and address, and the displayed To and Cc, and nowhere else |
| ExchangeFilter.PeopleAreFoundIff | internal/email/exchange_ews_provider.go:1004-1060 | senders are looked for in name and address, recipients in those of To and Cc, subjects in the subject |
| ExchangeFilter.FlagsAndTimesAreFoundIff | internal/email/exchange_ews_provider.go:1004-1060 | flags and times: After and Since include their instant and ask for a received time, Before excludes and Until includes it |
| ExchangeFilter.MatchingAreAdmittedUpTo | internal/email/exchange_ews_provider.go:1076-1100 | of the matching messages the server keeps back those received after the printed upper bound, and no others |
| ExchangeFilter.MatchingAreAdmitted | internal/ews/client.go:481-506 | with an upper bound in whole seconds every matching message satisfies the restriction |
| ExchangeFilter.AdmissionIsCompleteIff | internal/ews/client.go:493-498 | the restriction admits every match, whenever received, exactly when no accepted instant lies after the upper bound truncated to seconds |
| ExchangeFilter.AdmissionIsSoundIff | internal/ews/client.go:493-498 | the restriction admits only accepted times, whenever received, exactly when the first and the last time it lets through are within the bounds of the filter |
| ExchangeFilter.AddsNothingMeans | internal/ews/client.go:493-498 | for bounds of a second or more this means that nothing is let through at all, or that the lower bound has whole seconds and the upper one is no exclusive bound in whole seconds |
| ExchangeFilter.AdmittedMatch | internal/email/exchange_ews_provider.go:1076-1110 | with bounds in whole seconds and no client filter the restriction accepts exactly the matching messages and those received at an exclusive Before that is the effective upper bound |
| ExchangeSearch.SearchFolder | internal/email/exchange_ews_provider.go:131-171 | the pages of a folder are followed from offset 0; the offset strictly grows, all wanted results are taken unless there are too many, and it fails only if a call does |
| ExchangeSearch.SearchPage | internal/email/exchange_ews_provider.go:134-170 | one page: what is taken, whether the search is over, the next offset, and failure only if a call fails |
| ExchangeSearch.ListMessages | internal/email/exchange_ews_provider.go:113-213 | a sorted list without duplicates of at most maxResults ids, all of them come across on the pages searched and to be taken; below the limit, all of those; there is one whenever the server answers |
| ExchangeSearch.MissesNothing | internal/email/exchange_ews_provider.go:113-213 | below the limit, a search whose restriction is complete by AdmissionIsCompleteIff has found every matching message |
| ExchangeSearch.SearchIsCompleteIff | internal/email/exchange_ews_provider.go:127-171 | a search with a restriction finds every match in every mailbox, below the limit, exactly when no accepted instant lies after the upper bound truncated to seconds |
| ExchangeSearch.FoundIffOnFirstPage | internal/email/exchange_ews_provider.go:172-211 | below the limit, a search without a restriction has found a matching message exactly when it is on the first page of some folder |
| ExchangeSearch.FirstPageIsEnough | internal/email/exchange_ews_provider.go:172-211 | so it has found every matching message of a folder that fits on its first page |
| ExchangeSearch.SecondPageIsMissed | internal/email/exchange_ews_provider.go:186-211 | for any options that look at messages without a restriction: a match behind a first page without one is missed, whatever the limit |
| ExchangeSearch.UnreadMailIsMissed | internal/email/exchange_ews_provider.go:186-211 | a mailbox, an answering server and a search for one unread message that returns nothing, although the second page holds one |
| ExchangeSearch.ReturnsMatches | internal/email/exchange_ews_provider.go:139-211 | every returned message matches when the search looks at messages, when nothing is asked for, and when the restriction lets no time through that the filter would not accept |
| ExchangeSearch.SearchIsSoundIff | internal/email/exchange_ews_provider.go:127-171 | a search that trusts the restriction returns only matches from every mailbox exactly when it lets no such time through |
| Order.SortedIds | internal/email/exchange_ews_provider.go:949-956 | the ascending list of the ids, which is the same in whatever order the map is walked |
| Imap.MessageIdRoundTripIff | internal/email/imap.go:1169-1181 | a printed folder:uid is parsed back to the pair exactly when the folder has no colon; otherwise it is an error |
| Imap.PrintsBackIff | internal/email/imap.go:1169-1181 | an id that is parsed is printed back exactly when its number has no leading zeros; up to them it is folder:uid with a folder free of colons |
| Imap.GroupByFolder | internal/email/imap.go:1108-1130 | each folder that is named gets its group, and the ids that cannot be parsed are kept in order |
| Imap.GroupHasEachOnce | internal/email/imap.go:1116-1127 | a group has each UID that some id names in the folder, once |
| Imap.GroupInOrder | internal/email/imap.go:1116-1127 | a group is in the order of first occurrence |
| Imap.NoIdIsLost | internal/email/imap.go:1108-1130 | every id is either in its folder's group or among the invalid ones |
| Imap.SearchFolder | internal/email/imap.go:280-312 | the last UIDs of the answer up to the limit, the last one first; a panic exactly for a negative limit |
| Imap.SearchFolderPage | internal/email/imap.go:314-353 | one page: its UIDs in reverse and the token of the next one; a panic exactly when the end of a page that is not past the answer does not fit 64 bits |
| Imap.PageIsFull | internal/email/imap.go:314-353 | a page has as many UIDs as the limit, 100 without one, and as are left allow, and a token exactly when more are left |
| Imap.TokenRoundTrip | internal/email/imap.go:268-276 | a printed page token is parsed back to its offset |
| Imap.WalkVisitsAll | internal/email/imap.go:261-353 | following the tokens from any offset visits every UID from there on, in the server's order page by page, and ends; it panics exactly when the first page does |
| Imap.WalkFromStart | internal/email/imap.go:261-353 | from the empty token every UID of a fixed folder view is visited exactly once, and nothing panics |
| Archive.EscapedTextReadsBack | cmd/slopshell/materialize.go:822-832 | section 3.3.11 of RFC 5545 allows the escaped text exactly when the trimmed text has no control characters but tabs and line ends, and unescaping then gives the trimmed text with LF line ends |
| Archive.EscapeIsInjective | cmd/slopshell/materialize.go:822-832 | texts are written alike exactly when they agree up to trimming and line ends |
| Archive.BodyIsCanonical | cmd/slopshell/materialize.go:787-791 | the body has only CRLF pairs, as section 2.3 of RFC 5322 asks, keeps its lines, and normalising again changes nothing |
| Archive.SanitizePathSegment | cmd/slopshell/materialize.go:740-762 | the loop computes the segment of a title |
| Archive.SanitizedIsSegment | cmd/slopshell/materialize.go:740-762 | a segment is never empty and has only letters, digits and single inner dashes |
| Archive.SanitizedKeepsWords | cmd/slopshell/materialize.go:740-762 | a segment has the words of the lower-cased title, in order, or is artifact when there are none |
| Archive.AlnumIs | cmd/slopshell/materialize.go:744-756 | the characters that stay in a segment are the 26 small letters and the ten digits |
| Archive.SegmentIsFixed | cmd/slopshell/materialize.go:740-762 | a segment is its own segment |
| Archive.PathIsInItsDirectory | cmd/slopshell/materialize.go:580-613 | for every format that the program gives, joining and cleaning leave the file in the directory of its kind below the root |
| Archive.PathTellsId | cmd/slopshell/materialize.go:409-448 | artifacts with different ids never share a path, whatever their kinds, titles and origins |
| Archive.RenderedPaths | cmd/slopshell/materialize.go:427-441 | mail is written as eml, calendar events as ics and all else as md, in the directory of the kind |
| Archive.CopiedKeepsExtension | cmd/slopshell/materialize.go:409-425 | a copied file keeps its extension in lower case |
| Archive.CopiedWithoutExtension | cmd/slopshell/materialize.go:409-425 | and is written as bin if it has none |

## Left out

- Network, SQL, WebSocket, EWS and IMAP traffic, processes, clocks and randomness are inputs: a log, a page, a table
  operation that succeeds or fails, a time.
- Fully interleaved cache calls: a call is atomic and only the drain interleaves. Store and Invalidate touch the table
  and the map in opposite orders, so agreement does not survive finer interleaving.
- Row ids, `Stats`, nil receivers and `ParseToolCalls` of the cache; its 90 days are 90 times 24 hours.
- SHA-256, JSON encoding and the regular expressions that normalise prompts: the keys are compared by what is hashed.
- The token bucket uses exact reals where the program has float64, and sleeps may last arbitrarily long.
- JSON decoding of app-server messages, item details, the dialling client, context cancellation and the approval
  answers that a listener gives later.
- Generation jobs: the pipeline bypasses their guard, and their progress falls at the first model.
- Texts, timestamps, file names and the latest model of a training status, and the work of the jobs themselves.
- A second call of an unsubscribe function, which panics.
- StatusBroadcast.ReceivedInOrder: models one kind of status; the two broadcasts of the manager are alike.
- Cleaning of senders is left out. The tests for allowed rule keys and Unicode case folding are parameters of the rule
  model, with the two facts about folding that the proofs use; `RuleKeys` gives the program's tests and the folding of
  one character. Folder rules, which the program never builds, are not matched.
- Token extraction, the training labels, topics and staleness of the triage are inputs of the decisions.
- Policy summaries, warnings, examples and signals of the triage, and reasons of its decisions.
- Letters outside ASCII keep their case in `Text.Lower`; Go lowers them too.
- Pandoc.ParseSourceMap: does not resolve the path, because that is the file system's doing; whether a file is the
  map's own is an input of PdfLocation.
- float64 rounding of page positions and triage scores.
- Exchange folder selection, `ListMessagesPage`, and mail that changes during a search. A folder that is scanned
  without a restriction is searched on its first page only, as in the program.
- ExchangeFilter.MatchingAreAdmitted: is about messages with a received time; how the server treats a message without
  one is not part of this model. The server's From condition is taken to be the client's.
- Mailbox caches and the parallel search over all IMAP folders.
- Archive.SanitizePathSegment: lower-cases ASCII letters only, because `Text.Lower` does; other capitals that Go turns
  into ASCII letters, such as the Kelvin sign, become dashes here.
- The choice of the stem of a file name from title, URL and path, and the renderers around the modelled text.
- Command-line parsing, terminal rendering, model profiles and other finite tables, which have no state to reason about.
