# Verified models of the agent framework's stateful engines

Each group of modules below models one engine of the framework and proves what its callers rely
on. Code that updates state is a class or a loop whose contract ties the new state to a function
of the old one; the results are lemmas about those functions and about runs of any length.
`dafny verify dfyconfig.toml` checks all of it.

| engine | modules |
|---|---|
| persistent session log | `JsonLines`, `KeyedFiles`, `SessionLog`, `SessionStore`, `SessionRuns`, `SessionService` |
| leader lease | `Lease`, `LeaseRuns` |
| recency caches | `Recency`, `LruCache` |
| stream decoders | `Yields`, `AnthropicStream`, `OpenAiStream` |
| rate limiting | `TokenBucket`, `RateLimiters` |
| failover | `Cooldown`, `CooldownTracking`, `Failover`, `FallbackLlm`, `FailoverService` |
| search-result cache | `Bytes`, `Trigrams`, `SearchCache` |
| pruning and compression | `Pruning`, `Compression`, `CompressionService` |
| job scheduler | `Cron`, `CronService` |
| session lanes | `SessionLane` |
| routing | `Texts`, `AgentId`, `SessionKey`, `Searching`, `Route` |
| text cutting | `Segments`, `Truncation` |

## Where the code differs from what it says

The models follow the code. The member named with each point states it, most of them as an exact
condition or with a concrete input:

- A session file is read back with a scanner of 10 MB, but nothing limits what is appended. As
  long as one longer event line is in a session's file every start fails; a longer metadata line
  makes its session disappear silently (`SessionRuns.RestartsSucceed`,
  `SessionRuns.RestartOutcome`, `SessionRuns.LongEventStopsRestarts`, `SessionRuns.DeleteRepairs`,
  `SessionRuns.LongMetadataLosesSession`).
- The file of a session joins user and id with an underscore, so distinct sessions can share a
  file (`SessionRuns.PathCollision`, `SessionRuns.PathsCanCollide`).
- Two instances can both hold the leader flag, past the end of a lease
  (`LeaseRuns.OverlapHappens`), and even while both have leases that have not run out: a renewal
  that stalls after reading its clock can shorten a lease taken anew meanwhile
  (`LeaseRuns.OverlapIffLowered`, `LeaseRuns.StaleRenewalLowers`).
- A streamed tool call without an id is dropped, a whole reply keeps it; one whose JSON does not
  arrive has no arguments (`AnthropicStream.StreamGivesReply`).
- A bucket limiter's cleanup hands out calls early when its idle time does not refill a bucket
  (`TokenBucket.CleanupCanMatter`).
- Entries of one provider all ask the model of the last one, whatever model they name
  (`FallbackLlm.BuildLookup`).
- Keys of different conversations can be one text, when a channel or an id has a colon, and who a
  linked peer is can depend on the order in which links are visited (`SessionKey.ColonsCollide`,
  `SessionKey.KeysInjective`, `SessionKey.LinkOrderMatters`).
- Queries of fewer than three bytes all answer each other from the search cache
  (`SearchCache.ShortQueriesHit`).
- Soft trimming can make a text longer (`Pruning.TrimGrows`). The two ratios of a pruning strategy
  are not used by the code, so the model has none.
- Collecting everything before the deletion does not prevent loss: when creating the session again
  fails, nothing is left in the service, and a failure while the events are appended again can
  also give the state an older value back (`CompressionService.FaultLeaves`,
  `CompressionService.StateSurvives`, `CompressionService.StateCanGoBack`).
- A one-shot job that deletes itself takes a new job of the same name with it
  (`Cron.ReplacedJobLost`).
- A command can be sent to a channel whose worker has left its loop; it never runs
  (`SessionLane.RunsIffInLoop`, `SessionLane.CommandsCanStrand`).
- The documented form of an id, a letter or digit first, is not met by ids with a leading
  underscore, and normalising is not idempotent on some long ones, for which the session key then
  names another agent than the resolved one (`AgentId.PatternMet`, `AgentId.IdempotentUnlessCut`,
  `Route.KeyMissesCutIds`).
- A route of an agent with a blank id decides, but the default agent gets the message
  (`Route.HighestTierFirstRoute`).
- An LRU cache of capacity zero or less holds one entry (`Recency.RunBounded`).

## Conventions

Times are integers, or reals where the code computes with fractions of a second. Floating-point
numbers are reals. JSON is a pair of functions with an inverse law, error classification, cron
expressions and hashes are arbitrary functions. A mutex-protected method is one step and reads the
clock once, unless a property is about its interleaving; what other calls do to a shared object
between two steps is an argument. A map that is ranged over is visited in an arbitrary order.

## Model

| member | source | states |
|---|---|---|
| `SessionRuns.ReplayGivesHistory` | pkg/session/jsonl_store.go:84-394 | after every run of creates, appends, deletes, compactions, restarts and crashes, replaying a live session's file gives the metadata it was created with and a suffix of all non-partial events appended since, on the persisted fields, unless an event in the file is too long for the scanner, and then exactly that error; the suffix is all of them if the file was never compacted, at least `keep` otherwise; the memory holds a suffix that starts no later |
| `SessionRuns.RestartsSucceed` | pkg/session/jsonl_store.go:275-349 | after such a run a restart, or a crash in a compaction and the restart after it, succeeds if and only if no live session's file holds an event that is too long for the scanner; every other allowed step succeeds |
| `SessionRuns.RestartOutcome` | pkg/session/jsonl_store.go:275-394 | a restart succeeds if and only if no live session has an over-long event line behind a metadata line that fits; it brings back exactly the sessions whose metadata line fits, with the events of their files |
| `SessionRuns.LongEventStopsRestarts` | pkg/session/jsonl_store.go:145-394 | an event whose line is too long for the scanner is accepted as a session's first event, and a restart right after it fails, in any listing order |
| `SessionRuns.DeleteRepairs` | pkg/session/jsonl_store.go:129-349 | deleting the session takes the line away: if all other sessions' lines fit, restarts succeed again |
| `SessionRuns.LongMetadataLosesSession` | pkg/session/jsonl_store.go:84-349 | a session whose metadata line is too long is accepted, and a restart does without it and without an error |
| `SessionRuns.RunKeeps` | pkg/session/jsonl_store.go:84-394 | the invariant that ties files, memory and recorded history together holds after every run |
| `SessionRuns.StepKeeps` | pkg/session/jsonl_store.go:84-394 | every kind of step keeps it, and fails exactly when a restart finds an event that is too long |
| `SessionRuns.CreateKeeps` | pkg/session/jsonl_store.go:84-112 | creating a session adds its memory and its file and leaves all others as they were |
| `SessionRuns.WriteKeeps` | pkg/session/jsonl_store.go:145-185 | an appended event is in the memory and in the file |
| `SessionRuns.AppendKeeps` | pkg/session/jsonl_store.go:145-226 | so it is when the append also compacts |
| `SessionRuns.CompactKeeps` | pkg/session/jsonl_store.go:213-272 | a compaction changes only which suffix of the history the file holds |
| `SessionRuns.CompactsAtThreshold` | pkg/session/jsonl_store.go:145-226 | after every run an append compacts the session's file if and only if the text it held and the new line reach the threshold and it then holds more than `keep` events; then it starts at the last `keep` of the history, otherwise where it did, with the line added |
| `SessionRuns.SmallOrFew` | pkg/session/jsonl_store.go:145-226 | so after every append the file is below the threshold or holds at most `keep` events |
| `SessionRuns.Limits` | pkg/session/jsonl_store.go:213-235 | limits that are not positive are ten megabytes and two hundred events |
| `SessionRuns.DeleteKeeps` | pkg/session/jsonl_store.go:129-142 | a delete takes the session out of memory and files and leaves the others |
| `SessionRuns.CrashKeeps` | pkg/session/jsonl_store.go:230-272 | a crash at any step of a compaction before the rename, with any part of the temporary file written, leaves every session reading as before it |
| `SessionRuns.RestartKeeps` | pkg/session/jsonl_store.go:275-394 | when every line fits, a restart loses nothing that the files held |
| `SessionRuns.PathCollision` | pkg/session/jsonl_store.go:79-81 | two sessions share a file exactly when app, and user and id joined by an underscore, agree |
| `SessionRuns.PathsApart` | pkg/session/jsonl_store.go:79-81 | users without an underscore keep distinct sessions in distinct files |
| `SessionRuns.PathsCanCollide` | pkg/session/jsonl_store.go:79-81 | there are distinct sessions with one file |
| `SessionStore.CompactWritten` | pkg/session/jsonl_store.go:230-272 | compacting a written file gives the file of the same metadata and the last `keep` events, and does nothing exactly when there are no more |
| `SessionStore.LoadAllOutcome` | pkg/session/jsonl_store.go:275-349 | exact outcome of loading a directory in any listing order |
| `SessionLog.ReplayFile` | pkg/session/jsonl_store.go:314-394 | exact outcome of reading one written file, over-long lines included |
| `SessionLog.RecordRoundTrip` | pkg/session/jsonl_store.go:352-394 | a record read back gives the persisted fields of the event written |
| `JsonLines.TrimSplitRecovers` | pkg/session/jsonl_store.go:241-241 | trimming and splitting a file gives back exactly the newline-free lines that were appended |
| `JsonLines.TrimRightIs` | pkg/session/jsonl_store.go:241-241 | trimming cuts off all newlines at the end and nothing else |
| `JsonLines.UnlinesIsJoin` | pkg/session/jsonl_store.go:252-252 | joining lines and ending with a newline is what appending them one by one leaves |
| `JsonLines.ScanUnlines` | pkg/session/jsonl_store.go:321-322 | the scanner gives back the lines up to the first that is too long for it |
| `SessionService.JSONLService.constructor` | pkg/session/jsonl_store.go:64-76 | an empty service |
| `SessionService.JSONLService.Create` | pkg/session/jsonl_store.go:84-112 | new files and memory, and the error on an existing session, as the step of the run says |
| `SessionService.JSONLService.Delete` | pkg/session/jsonl_store.go:129-142 | the same for delete |
| `SessionService.JSONLService.AppendEvent` | pkg/session/jsonl_store.go:145-185 | the same for append, partial events and unknown sessions included |
| `SessionService.JSONLService.MaybeCompact` | pkg/session/jsonl_store.go:213-226 | compacts exactly files at or over the threshold |
| `SessionService.JSONLService.Compact` | pkg/session/jsonl_store.go:230-272 | the rewritten file, or nothing to do |
| `SessionService.JSONLService.LoadEvents` | pkg/session/jsonl_store.go:352-394 | the replay loop gives the persisted events in order or the first error |
| `SessionService.JSONLService.LoadFile` | pkg/session/jsonl_store.go:314-349 | one file into memory: an existing session is reported before its events are read |
| `SessionService.JSONLService.LoadAll` | pkg/session/jsonl_store.go:275-311 | all files of a listing into memory |
| `Lease.LockTable.Upsert` | pkg/scheduler/distributed_lock.go:40-69 | the upsert's three assignments from left to right together take the row exactly when it is free |
| `Lease.DistributedLock.TryAcquire` | pkg/scheduler/distributed_lock.go:40-69 | upsert, then select: true exactly when the row is the instance's own |
| `Lease.DistributedLock.Release` | pkg/scheduler/distributed_lock.go:72-78 | deletes only the instance's own row |
| `Lease.DistributedLock.Renew` | pkg/scheduler/distributed_lock.go:81-98 | extends only the instance's own row |
| `Lease.DistributedLock.CleanupExpired` | pkg/scheduler/distributed_lock.go:101-107 | deletes only a row past its expiry |
| `LeaseRuns.RunKeeps` | pkg/scheduler/distributed_heartbeat.go:52-129 | the invariant of the election over every interleaving of clock reads, upserts, selects, renewals, releases and cleanups of any number of instances |
| `LeaseRuns.FlagTells` | pkg/scheduler/distributed_heartbeat.go:52-129 | in every run an instance has the leader flag if and only if the last answer of TryAcquire that it acted on was true and since then no worker of it acted on a failed renewal and it did not release; it starts one worker each time it becomes leader |
| `LeaseRuns.OneLiveLease` | pkg/scheduler/distributed_lock.go:40-107 | in every state of every run in which no renewal lowers a live lease, at most one instance was told of a lease that has not run out, and the row is its own and lasts at least as long |
| `LeaseRuns.OneWrittenLease` | pkg/scheduler/distributed_lock.go:40-107 | in every run whatever at most one instance has written an expiry that has not passed, reported to it or not, and the row is its own |
| `LeaseRuns.LeadersOverlapOnlyExpired` | pkg/scheduler/distributed_heartbeat.go:52-129 | in such a run, of two instances that both have the leader flag, neither past the delete in its release, one has no lease left: the latest expiry it was told of has passed |
| `LeaseRuns.RowLeavesOwner` | pkg/scheduler/distributed_lock.go:40-107 | the row leaves its owner only at a clock past its expiry or by the owner's own delete |
| `LeaseRuns.TakeoverIsSafe` | pkg/scheduler/distributed_lock.go:40-69 | an upsert that takes the row over from another instance takes no expiry that was written and has not passed, and in such a run no lease that another instance was told of and that has not run out |
| `LeaseRuns.CleanupFrees` | pkg/scheduler/distributed_lock.go:101-107 | a cleanup takes the row from nobody whose expiry has not passed, and leaves no row that has run out by its clock |
| `LeaseRuns.OverlapHappens` | pkg/scheduler/distributed_heartbeat.go:52-115 | even in such a run two leaders at once can be reached, past the end of a lease |
| `LeaseRuns.OverlapIffLowered` | pkg/scheduler/distributed_lock.go:40-98 | the condition on the runs is exact: when a renewal of a leader takes effect after such a run, another instance can become leader while both have leases that have not run out, if and only if the renewal leaves the row below what its instance was told of |
| `LeaseRuns.StaleRenewalLowers` | pkg/scheduler/distributed_heartbeat.go:52-115 | a whole run with two instances in which a renewal does, after reading its clock before the row ran out and was taken anew |
| `LeaseRuns.StalledRenewal` | pkg/scheduler/distributed_lock.go:40-98 | and wherever a leader's renewal stalls between reading the clock and its statement until the row ran out and the leader took it anew |
| `Recency.RunBounded` | pkg/storage/cache/lru_impl.go:29-69 | over every run of gets, puts, deletes and clears the list has no key twice and at most the capacity, where a capacity below one works as one |
| `Recency.HoldsLastPut` | pkg/storage/cache/lru_impl.go:29-69 | what is found under a key is the value of its last put |
| `Recency.OrderedByUse` | pkg/storage/cache/lru_impl.go:29-60 | the list is in the order of last uses |
| `Recency.EvictsLeastRecentlyUsed` | pkg/storage/cache/lru_impl.go:43-60 | a put of a new key on a full list drops exactly the key whose last use is furthest back |
| `Recency.Survives` | pkg/storage/cache/lru_impl.go:29-60 | a key stays as long as it is not deleted, the cache is not cleared and fewer than `capacity` other keys are used |
| `Recency.PushedOut` | pkg/storage/cache/lru_impl.go:43-60 | a key that is not used is gone once `capacity` other keys are put and no single key of any kind is deleted |
| `LruCache.Lru.constructor` | pkg/storage/cache/lru_impl.go:21-27 | an empty cache |
| `LruCache.Lru.Get` | pkg/storage/cache/lru_impl.go:29-41 | the map-and-list cache gives and keeps what the recency list does |
| `LruCache.Lru.Update` | pkg/storage/cache/lru_impl.go:46-50 | an element that is overwritten in place moves to the front |
| `LruCache.Lru.EvictOldest` | pkg/storage/cache/lru_impl.go:51-57 | the back of the list goes, with its map entry |
| `LruCache.Lru.Push` | pkg/storage/cache/lru_impl.go:58-59 | a new element comes in front |
| `LruCache.Lru.Put` | pkg/storage/cache/lru_impl.go:43-60 | put refines the recency list's put for every capacity |
| `LruCache.Lru.Delete` | pkg/storage/cache/lru_impl.go:62-69 | delete refines the recency list's delete |
| `LruCache.EmbeddingCache.Get` | pkg/storage/vectordb/embedding_cache.go:36-46 | the same refinement for the embedding cache |
| `LruCache.EmbeddingCache.Set` | pkg/storage/vectordb/embedding_cache.go:49-71 | the same for set |
| `LruCache.EmbeddingCache.Clear` | pkg/storage/vectordb/embedding_cache.go:80-85 | an empty list |
| `LruCache.EmbeddingCache.Size` | pkg/storage/vectordb/embedding_cache.go:88-92 | the length of the list |
| `LruCache.HashedLastPut` | pkg/storage/vectordb/embedding_cache.go:36-71 | what was last put under a text's hash is what was last set for the text, when no other text that was set or deleted has its hash |
| `LruCache.HitIsOwnVector` | pkg/storage/vectordb/embedding_cache.go:36-77 | then a hit is the vector last set for the text itself |
| `AnthropicStream.ConvertResponse` | pkg/providers/anthropic/convert.go:216-253 | the parts and the finish reason of a whole reply |
| `AnthropicStream.HandleEvent` | pkg/providers/anthropic/model.go:193-278 | one event: what is yielded, the next decoder state, whether the loop stops |
| `AnthropicStream.ProcessSSE` | pkg/providers/anthropic/model.go:177-287 | the loop delivers exactly the stream's items up to where the consumer stops |
| `AnthropicStream.StreamYields` | pkg/providers/anthropic/model.go:177-287 | a well-formed stream yields its blocks' items in order and one final item |
| `AnthropicStream.BrokenStream` | pkg/providers/anthropic/model.go:177-287 | a stream that breaks off between blocks yields what came through and then the error, and no more if it just ends |
| `AnthropicStream.BrokenBlock` | pkg/providers/anthropic/model.go:177-287 | inside a block the texts so far come through, a call does not |
| `AnthropicStream.StartForgets` | pkg/providers/anthropic/model.go:208-216 | the start of a block forgets all of a block that was not stopped |
| `AnthropicStream.ErrorEnds` | pkg/providers/anthropic/model.go:267-282 | an error event ends the stream with its message, whatever follows |
| `AnthropicStream.CompleteIffStopped` | pkg/providers/anthropic/model.go:177-287 | of all streams exactly those with a stop before any error event end with a final item, once, with the finish of the last stop reason and the last usage given |
| `AnthropicStream.StopReasons` | pkg/providers/anthropic/convert.go:255-268 | what stop reasons mean |
| `AnthropicStream.StreamGivesReply` | pkg/providers/anthropic/model.go:177-287 | however text and JSON are cut, the parts yielded, neighbouring texts joined, equal those of the whole reply if and only if every tool call has an id, and some of its JSON arrives if its input has arguments; the finish reason is always the same |
| `AnthropicStream.CallLost` | pkg/providers/anthropic/model.go:238-254 | a reply with a call without an id is one that the stream does not give |
| `AnthropicStream.ArgumentsLost` | pkg/providers/anthropic/model.go:238-254 | so is a call with arguments of which no JSON arrives |
| `AnthropicStream.PiecesJoin` | pkg/providers/anthropic/model.go:222-236 | a text cut into any pieces joins to the text |
| `AnthropicStream.SameCallsAgree` | pkg/providers/anthropic/model.go:238-254 | whatever the fragments carry, the decoder yields no more calls than the reply holds, and the same ones only if it agrees with the conversion on each |
| `Yields.NothingAfterStop` | pkg/providers/anthropic/model.go:177-287 | a consumer receives a prefix, and nothing after it stopped |
| `OpenAiStream.ApplyCalls` | pkg/providers/openaicompat/model.go:240-264 | the loops over a chunk's tool-call deltas |
| `OpenAiStream.ReadLine` | pkg/providers/openaicompat/model.go:203-300 | one turn of the loop leaves unchanged what reaches the consumer in the end |
| `OpenAiStream.EmitCalls` | pkg/providers/openaicompat/model.go:268-286 | the loop that emits the pending calls |
| `OpenAiStream.ProcessSSE` | pkg/providers/openaicompat/model.go:189-307 | the loop delivers exactly the stream's items up to where the consumer stops |
| `OpenAiStream.Reassembles` | pkg/providers/openaicompat/model.go:240-264 | each call's arguments are the arrival-order concatenation of the fragments with its index, under the last id and name that came with it |
| `OpenAiStream.InterleavingIrrelevant` | pkg/providers/openaicompat/model.go:240-264 | streams whose deltas agree index by index give the same calls, however they are mixed |
| `OpenAiStream.FinishedStream` | pkg/providers/openaicompat/model.go:189-307 | what a stream yields that ends with a finish reason |
| `OpenAiStream.FinishedReply` | pkg/providers/openaicompat/model.go:189-307 | its calls, all in one item, have at each index the last id and name and the arguments parsed from all fragments of that index end to end |
| `OpenAiStream.BrokenStream` | pkg/providers/openaicompat/model.go:189-307 | a stream that breaks off or just ends before a finish reason yields its texts and then that failure; the calls begun are lost |
| `OpenAiStream.MarkedStream` | pkg/providers/openaicompat/model.go:194-199 | so does one with the end mark before a finish reason, whatever follows the mark |
| `OpenAiStream.CompleteIffFinished` | pkg/providers/openaicompat/model.go:189-307 | a stream ends with a final item if and only if a finish reason comes before any end mark and before it breaks off |
| `OpenAiStream.OneTerminal` | pkg/providers/openaicompat/model.go:189-307 | every stream has exactly one terminal item, final or error, and it is the last |
| `OpenAiStream.DeliveredTerminal` | pkg/providers/openaicompat/model.go:189-307 | a consumer gets it last unless it stopped before |
| `RateLimiters.Cell.constructor` | pkg/api/middleware/ratelimit.go:26-38 | a new bucket is full |
| `RateLimiters.Cell.Take` | pkg/api/middleware/ratelimit.go:41-62 | refill, cap and take on the fields of one bucket |
| `RateLimiters.RateLimiter.PerTenant` | pkg/tools/ratelimit.go:28-40 | the tenant limiter: rate and burst, ten minutes idle |
| `RateLimiters.RateLimiter.PerClient` | pkg/api/middleware/ratelimit.go:74-97 | the client limiter: capacity burst or rate, a sixtieth of the rate a second, five minutes idle |
| `RateLimiters.RateLimiter.Allow` | pkg/tools/ratelimit.go:77-101 | the decision and the one bucket changed |
| `RateLimiters.RateLimiter.CleanUp` | pkg/api/middleware/ratelimit.go:125-139 | drops exactly the idle buckets, in whatever order they come |
| `RateLimiters.ClientCleanupsHarmless` | pkg/api/middleware/ratelimit.go:26-38 | the client limiter meets the condition for harmless cleanups if and only if it has no burst of its own or five minutes of its rate make it up |
| `RateLimiters.TenantCleanupsHarmless` | pkg/tools/ratelimit.go:28-66 | the tenant limiter if and only if ten minutes of its rate make up the burst |
| `RateLimiters.ClientMinute` | pkg/api/middleware/ratelimit.go:26-38 | in every minute a client gets at most its rate beyond the burst |
| `RateLimiters.TenantSecond` | pkg/tools/ratelimit.go:77-101 | in every second a tenant gets at most its rate beyond the burst |
| `TokenBucket.WindowBound` | pkg/tools/ratelimit.go:77-101 | in every window of every run without cleanups a key is admitted at most capacity + rate * length times |
| `TokenBucket.AdmitsIffFits` | pkg/tools/ratelimit.go:77-101 | a call is admitted if and only if in every window that ends with it the admitted calls are then at most capacity + rate * length: none is refused without need |
| `TokenBucket.WindowBoundWithCleanups` | pkg/tools/ratelimit.go:58-101 | the same with cleanups at any moments, when capacity <= idle time * rate |
| `TokenBucket.KeysApart` | pkg/tools/ratelimit.go:77-101 | under every policy a key's bucket is what its own calls and the cleanups make of it, whatever other keys do |
| `TokenBucket.DecisionsApart` | pkg/tools/ratelimit.go:77-101 | and so is every decision on it |
| `TokenBucket.CleanupsChangeNothing` | pkg/tools/ratelimit.go:58-101 | cleanups at any moments change no decision when capacity <= idle time * rate |
| `TokenBucket.CleanupCanMatter` | pkg/tools/ratelimit.go:58-101 | otherwise, for a bucket that holds a call, there is a run in which a cleanup changes a decision |
| `TokenBucket.CleanupDrops` | pkg/tools/ratelimit.go:58-68 | a cleanup drops exactly the buckets whose keys were last called longer ago than the idle time |
| `TokenBucket.EmptyPolicy` | pkg/tools/ratelimit.go:77-101 | a bucket that holds no call never admits one |
| `Cooldown.CooldownClosedForm` | pkg/providers/fallback/cooldown.go:188-199 | min(60, 5^(n-1)) minutes for all n >= 1 |
| `Cooldown.BillingClosedForm` | pkg/providers/fallback/cooldown.go:208-219 | min(24, 5 * 2^(n-1)) hours for all n >= 1 |
| `Cooldown.WaitsGrow` | pkg/providers/fallback/cooldown.go:188-219 | more failures never mean a shorter wait, and none exceeds the failure window |
| `Cooldown.CountsLatestChain` | pkg/providers/fallback/cooldown.go:46-87 | the counters equal the counts over the failures since the last success that form the latest chain with gaps of at most a day |
| `Cooldown.WaitAfterFailure` | pkg/providers/fallback/cooldown.go:53-70 | over every history a failure makes its provider wait, from the failure on, exactly min(60, 5^(n-1)) minutes for the n-th failure of the latest chain, a billing failure min(24, 5 * 2^(b-1)) hours for the b-th billing failure in it; the other wait stays |
| `Cooldown.CountersAgree` | pkg/providers/fallback/cooldown.go:46-87 | the error count is the sum over all reasons |
| `Cooldown.WaitsNeverEarlier` | pkg/providers/fallback/cooldown.go:46-71 | between successes neither wait moves earlier, also when the counters are reset |
| `Cooldown.AvailableWhenOver` | pkg/providers/fallback/cooldown.go:90-142 | the remaining time is at most a day and says exactly from when on the provider is available |
| `Cooldown.FailureBlocks` | pkg/providers/fallback/cooldown.go:46-71 | a failure makes the provider unavailable for at least a minute, five hours after a billing failure |
| `CooldownTracking.CooldownEntry.Fail` | pkg/providers/fallback/cooldown.go:53-70 | the field updates of a failure |
| `CooldownTracking.CooldownEntry.Reset` | pkg/providers/fallback/cooldown.go:82-86 | the field updates of a success; the last failure is kept |
| `CooldownTracking.CooldownTracker.GetOrCreate` | pkg/providers/fallback/cooldown.go:146-155 | the entry of a provider, a blank one if there was none |
| `CooldownTracking.CooldownTracker.MarkFailure` | pkg/providers/fallback/cooldown.go:46-71 | changes that provider's entry only |
| `CooldownTracking.CooldownTracker.MarkSuccess` | pkg/providers/fallback/cooldown.go:74-87 | changes that provider's entry only, and creates none |
| `CooldownTracking.CooldownTracker.IsAvailable` | pkg/providers/fallback/cooldown.go:90-112 | both waits are over |
| `CooldownTracking.CooldownTracker.CooldownRemaining` | pkg/providers/fallback/cooldown.go:115-142 | the longer of the two rests |
| `Failover.RunsInOrder` | pkg/providers/fallback/chain.go:67-90 | the runs are an in-order subsequence, each position at most once, exactly at turns that find the call going on, not cancelled and the provider available |
| `Failover.OverIsOver` | pkg/providers/fallback/chain.go:54-144 | nothing happens after a success, an abort or a cancellation |
| `Failover.ServedByFirst` | pkg/providers/fallback/chain.go:54-144 | a success at k if and only if k is run and done and every candidate before it passes; it is the last run |
| `Failover.ExhaustedListsAll` | pkg/providers/fallback/chain.go:54-144 | exhausted if and only if every candidate passes; then each is listed once, in order, skipped exactly when its provider was in cooldown |
| `Failover.ServedResets` | pkg/providers/fallback/chain.go:90-95 | when a call is served, its provider has no errors, no counts and no waits, and is available at every clock |
| `Failover.TrackerIsHistory` | pkg/providers/fallback/chain.go:67-135 | the tracker that a call leaves holds of every provider what its history makes of it: the history before, the marks of other calls, and of this call a success or a classified failure at each turn that runs; skipped and cancelled turns, malformed requests and unclassified errors say nothing |
| `Failover.NotHammered` | pkg/providers/fallback/chain.go:67-135 | a provider that failed in this call is not run again in it before its wait is over, under any model, whatever other calls mark in the shared tracker meanwhile, except a success of that provider |
| `Failover.SuccessEndsWait` | pkg/providers/fallback/chain.go:67-135 | after such a success it can be run again at once |
| `FailoverService.Chain.Mark` | pkg/providers/fallback/chain.go:91-135 | the outcome of one run: attempt, tracker, end |
| `FailoverService.Chain.Execute` | pkg/providers/fallback/chain.go:54-144 | the loop, with the marks of other calls between and during its turns, gives exactly the walk that the lemmas above are about |
| `FallbackLlm.BuildLookup` | pkg/providers/fallback/llm.go:71-75 | the lookup by provider holds the last entry of each |
| `FallbackLlm.LastOfIsLast` | pkg/providers/fallback/llm.go:71-75 | which is the last |
| `FallbackLlm.IsChainCall` | pkg/providers/fallback/llm.go:82-99 | a generation is a call of the chain, so all that is proved of the chain holds |
| `FallbackLlm.GenerationContract` | pkg/providers/fallback/llm.go:60-112 | the responses are all that the runs said before their errors, in order, or a part that ends where the consumer stopped, with nothing after it; exactly one error follows, last, if and only if no candidate served: the last run's, or the chain's when nothing was run |
| `FailoverService.FallbackLLM.Stream` | pkg/providers/fallback/llm.go:82-99 | the loop over one model's stream |
| `FailoverService.FallbackLLM.RunAll` | pkg/providers/fallback/llm.go:82-99 | the turns of the chain, each with the stream of the model that is asked |
| `FailoverService.FallbackLLM.GenerateWithFallback` | pkg/providers/fallback/llm.go:60-112 | the loops yield what the contract is about and leave the chain's tracker |
| `Trigrams.GramTells` | pkg/skills/search_cache.go:180-182 | a packed trigram tells its three bytes |
| `Trigrams.Dedup` | pkg/skills/search_cache.go:185-193 | the in-place loop leaves the list without repeated neighbours in its first cells |
| `Trigrams.UniqueIsSet` | pkg/skills/search_cache.go:185-193 | of a sorted list that is the set, strictly increasing |
| `Trigrams.OneList` | pkg/skills/search_cache.go:174-194 | a set has one increasing list |
| `Trigrams.BuildTrigrams` | pkg/skills/search_cache.go:174-194 | the strictly increasing list of the text's trigrams |
| `Trigrams.Intersection` | pkg/skills/search_cache.go:201-214 | the two pointers count exactly the common elements |
| `Trigrams.MatchesShared` | pkg/skills/search_cache.go:201-214 | from any two positions on |
| `Trigrams.JaccardSimilarity` | pkg/skills/search_cache.go:197-218 | the size of the intersection over the size of the union |
| `Trigrams.SimilarityLaws` | pkg/skills/search_cache.go:197-218 | symmetric, between 0 and 1, and 1 exactly for equal sets |
| `SearchCache.Cache.constructor` | pkg/skills/search_cache.go:33-46 | an empty cache with the default limits where none are given |
| `SearchCache.Cache.Get` | pkg/skills/search_cache.go:51-90 | an exact live entry, else a most similar live one at or over 0.7, else a miss; the hit becomes the most recently used and nothing else changes |
| `SearchCache.Cache.MostSimilar` | pkg/skills/search_cache.go:69-83 | the maximum over the live entries, in whatever order they come |
| `SearchCache.Cache.Put` | pkg/skills/search_cache.go:93-132 | the expired entries are gone, the query is the most recently used, of the others the newest stay, as many as fit; the order stays a duplicate-free ranking of the keys |
| `SearchCache.Cache.EvictExpired` | pkg/skills/search_cache.go:143-155 | exactly the expired entries go |
| `SearchCache.Cache.EvictOldest` | pkg/skills/search_cache.go:116-120 | the oldest go until one more fits |
| `SearchCache.Cache.MoveToEnd` | pkg/skills/search_cache.go:157-165 | the used key goes to the end |
| `SearchCache.UsedIsLast` | pkg/skills/search_cache.go:157-165 | the others keep their order |
| `SearchCache.ShortQueriesCollide` | pkg/skills/search_cache.go:174-218 | a query of fewer than three bytes has similarity 1 to exactly the other such queries |
| `SearchCache.ShortQueriesHit` | pkg/skills/search_cache.go:69-87 | so any live short entry is a best hit for every short query |
| `Pruning.TrimGrows` | pkg/pruning/pruning.go:90-109 | trimming makes a text longer if and only if head + tail < length < head + tail + marker |
| `Pruning.ClearAfterTrim` | pkg/pruning/pruning.go:61-143 | clearing after trimming is clearing; both are idempotent |
| `Pruning.ClearedAt` | pkg/pruning/pruning.go:112-143 | clearing puts the same text for every tool result of the user's messages and touches nothing else |
| `Pruning.TrimmedAt` | pkg/pruning/pruning.go:61-109 | trimming leaves beginning, marker and end of every such result that is longer, and touches nothing else |
| `Pruning.KeptInOrder` | pkg/pruning/pruning.go:146-165 | the kept messages are in order and hold every protected one |
| `Pruning.KeptTokens` | pkg/pruning/pruning.go:146-165 | their summed tokens are at most the target plus the protected ones' tokens |
| `Pruning.KeptIff` | pkg/pruning/pruning.go:146-165 | a message is kept if and only if it is protected or fits the target together with the newer ones that are kept |
| `Pruning.RecentCount` | pkg/pruning/pruning.go:167-179 | the protected messages are n of the model's, or all if there are fewer |
| `Pruning.RecentAreLast` | pkg/pruning/pruning.go:167-179 | and they are the last ones |
| `Pruning.DroppedBound` | pkg/pruning/pruning.go:146-195 | the estimate of the whole list is at most three quarters of a token a message above that |
| `Pruning.PruneKeeps` | pkg/pruning/pruning.go:36-165 | pruning keeps an in-order part with the last model messages in it and touches only tool results of user messages |
| `Pruning.PruneFits` | pkg/pruning/pruning.go:36-195 | the result fits the target, but for the protected messages and the rounding |
| `Pruning.GentlestPruning` | pkg/pruning/pruning.go:36-58 | pruning goes no further than it must: what fits stays, what fits trimmed loses no result, what fits cleared loses no message |
| `Pruning.EstimateTokens` | pkg/pruning/pruning.go:182-195 | the characters of all parts, a quarter of them |
| `Pruning.TokensOfConversation` | pkg/pruning/pruning.go:182-195 | a quarter of the length of all that the messages say |
| `Pruning.Rewrite` | pkg/pruning/pruning.go:61-143 | the loops over messages and parts |
| `Pruning.FindRecentAssistantIndices` | pkg/pruning/pruning.go:167-179 | exactly the last n model messages |
| `Pruning.DropOldMessages` | pkg/pruning/pruning.go:146-165 | the backward loop |
| `Pruning.PruneMessages` | pkg/pruning/pruning.go:36-58 | the three layers in turn |
| `Compression.SummarisedState` | pkg/agent/compression.go:185-246 | appending the newest events again to the state they led to leaves it as it is |
| `Compression.Shrinks` | pkg/agent/compression.go:66-108 | every compression of more than four events that succeeds keeps the state and strictly lowers the number of events |
| `Compression.RoundsEnd` | pkg/agent/compression.go:66-108 | so repeated compression ends, in at most as many rounds as there were events, with the state it began with |
| `Compression.RoundsStop` | pkg/agent/compression.go:66-108 | and exactly a session of at most four events is one that no forced compression changes any more |
| `Compression.PrunedKeeps` | pkg/agent/compression.go:66-84 | when pruning was enough the messages of the new session's events are an in-order part of the old ones with the last model messages in it, one an event, each as it was or with its tool results trimmed or cleared; the state stays |
| `Compression.PrunedFits` | pkg/agent/compression.go:66-84 | they fit seven tenths of the estimated size, but for the protected messages and the rounding |
| `Compression.SessionEstimate` | pkg/agent/compression.go:52-62 | the estimate is a quarter of the text, rounded down part by part |
| `Compression.ForcedKeepsNewest` | pkg/agent/compression.go:98-108 | a forced compression drops exactly the older half and puts a note in its place |
| `Compression.SummaryOfDropped` | pkg/agent/compression.go:86-95 | when pruning was not enough, the model is asked about the text of exactly the events that go, the older three quarters, a line a part, and its answer takes their place; it fails exactly when the model does |
| `CompressionService.SessionService.Create` | pkg/agent/compression.go:214-222 | fails on an existing session |
| `CompressionService.Compressor.Replace` | pkg/agent/compression.go:204-243 | what deleting, creating and refilling leave when any step may fail |
| `CompressionService.Compressor.ReplaceSession` | pkg/agent/compression.go:185-246 | the newest events after one summary |
| `CompressionService.Compressor.ReplaceSessionWithMessages` | pkg/agent/compression.go:261-301 | an event per pruned message |
| `CompressionService.Compressor.EventsToMessages` | pkg/agent/compression.go:249-258 | the messages of the events that have one |
| `CompressionService.Compressor.ExtractText` | pkg/agent/compression.go:110-125 | the text of the old events |
| `CompressionService.Compressor.Compress` | pkg/agent/compression.go:66-95 | nothing changes when there is nothing to do or the model fails; otherwise, whichever step fails, exactly what replacing the session by the compressed one leaves by then |
| `CompressionService.Compressor.ForceCompress` | pkg/agent/compression.go:98-108 | the same without a summary |
| `CompressionService.FaultLeaves` | pkg/agent/compression.go:204-301 | a compression changes its session all or not at all if and only if no step fails after the deletion; otherwise the session is gone, when it cannot be created, or holds exactly the events before the failing append; no other session changes |
| `CompressionService.StateSurvives` | pkg/agent/compression.go:185-301 | the state survives a failure if and only if the session was created again and the events appended by then say nothing that the state had moved on from |
| `CompressionService.StateCanGoBack` | pkg/agent/compression.go:98-243 | there is a failure that gives a session an older value back |
| `Cron.FiresOnTime` | pkg/scheduler/cron.go:86-135 | over every interleaving of add, enable, disable, remove and the two phases of a round, no firing of a one-shot job is early, it has no second one, and the firings of a repeating job are its interval apart |
| `Cron.NextRunIsPlanned` | pkg/scheduler/cron.go:86-304 | in every run the next run of every job is the one planned when it was last added, switched on or fired: a one-shot time still to come, the interval after the last run or after the planning, or what the cron expression gives after the planning; and a job is on as it was last switched |
| `Cron.FiresOnlyCollected` | pkg/scheduler/cron.go:203-260 | whatever fires was in the table, on and due when its round began |
| `Cron.RunKeeps` | pkg/scheduler/cron.go:86-304 | the invariant over every run |
| `Cron.FireKeeps` | pkg/scheduler/cron.go:220-260 | firing keeps it |
| `Cron.EnableKeeps` | pkg/scheduler/cron.go:117-135 | enabling keeps it, also while the job waits to be fired |
| `Cron.RoundSettles` | pkg/scheduler/cron.go:203-260 | after a round without edits exactly the collected jobs have fired, once each, and every enabled job's next run is none or later |
| `Cron.RoundCannotSpin` | pkg/scheduler/cron.go:159-217 | so the loop does not fire again at the same time |
| `Cron.FireUnlists` | pkg/scheduler/cron.go:244-250 | firing takes another job out of the table exactly when the fired one deletes itself and the other was added under its name |
| `Cron.ReplacedJobLost` | pkg/scheduler/cron.go:203-250 | which can be reached: the new job is gone and never ran |
| `CronService.Service.AddJob` | pkg/scheduler/cron.go:86-102 | the next run of a job that has none, and the table |
| `CronService.Service.EnableJob` | pkg/scheduler/cron.go:117-135 | one job in place |
| `CronService.Service.RemoveJob` | pkg/scheduler/cron.go:105-114 | the table without the job |
| `CronService.Service.EarliestRun` | pkg/scheduler/cron.go:185-200 | the minimum over the enabled jobs |
| `CronService.Service.CollectDue` | pkg/scheduler/cron.go:203-212 | exactly the due jobs, each once |
| `CronService.Service.FireJob` | pkg/scheduler/cron.go:220-260 | the job's state in place, and the table |
| `CronService.Service.FireDueJobs` | pkg/scheduler/cron.go:203-217 | a whole round: who fired, who did not, and nobody left due |
| `SessionLane.OneLiveWorker` | pkg/queue/lane.go:68-122 | in every interleaving a key is in the map exactly while one worker of its lives, and never two |
| `SessionLane.ExecutedOnceInOrder` | pkg/queue/lane.go:68-122 | no command runs twice, and those of a key run in the order they were sent, across workers |
| `SessionLane.SentIsSomewhere` | pkg/queue/lane.go:68-122 | a sent command was executed or waits in its channel's buffer, and not both |
| `SessionLane.CommandsKept` | pkg/queue/lane.go:68-122 | every command is in exactly one of three places: with its producer, sent on the channel of its own key, or given up because the queue was stopped; no channel holds more than its capacity |
| `SessionLane.StrandedForGood` | pkg/queue/lane.go:100-122 | a command in the buffer of a worker that has left its loop, leaving or gone, is never executed |
| `SessionLane.RunsIffInLoop` | pkg/queue/lane.go:68-122 | in every reachable system a sent command that was not executed can still run if and only if the worker of its channel is in its loop |
| `SessionLane.SentTooLate` | pkg/queue/lane.go:79-122 | so what a send puts into a channel can run if and only if its worker is still in its loop |
| `SessionLane.CommandsCanStrand` | pkg/queue/lane.go:68-122 | and there is a run without cancellation that leaves one there |
| `SessionLane.RunKeeps` | pkg/queue/lane.go:59-122 | the invariant over every run |
| `SessionLane.ReceiveKeeps` | pkg/queue/lane.go:111-117 | receiving keeps it |
| `SessionLane.SendKeeps` | pkg/queue/lane.go:79-82 | sending keeps it |
| `AgentId.Alphabet` | pkg/routing/agent_id.go:36-55 | an id has 1 to 64 characters of [a-z0-9_-] and does not begin with a dash |
| `AgentId.CollapsedRuns` | pkg/routing/agent_id.go:36-55 | cleaning leaves characters of ids as they are and makes each run of others one dash |
| `AgentId.StrippedIs` | pkg/routing/agent_id.go:36-55 | then all dashes at both ends go, and nothing else |
| `AgentId.PatternMet` | pkg/routing/agent_id.go:24-55 | the documented pattern is met if and only if no underscore comes before the first letter or digit |
| `AgentId.PatternMissed` | pkg/routing/agent_id.go:24-55 | there is an id whose normal form does not meet it |
| `AgentId.IdempotentUnlessCut` | pkg/routing/agent_id.go:36-55 | normalising is idempotent except exactly for ids that, cleaned, are longer than 64, begin with an underscore and have a dash at the cut |
| `AgentId.NotIdempotent` | pkg/routing/agent_id.go:36-55 | there are such ids |
| `AgentId.TwiceSettles` | pkg/routing/agent_id.go:36-55 | a second normal form is its own normal form, for every id |
| `SessionKey.ParseUndoesBuild` | pkg/routing/session_key.go:48-125 | parsing a built key gives the normalised agent and the rest, for every input |
| `SessionKey.ParseIff` | pkg/routing/session_key.go:110-128 | a text of that form is parsed if and only if its agent is not blank and something follows |
| `SessionKey.ParsedIsJoined` | pkg/routing/session_key.go:110-128 | and whatever is parsed has that form |
| `SessionKey.MainKey` | pkg/routing/session_key.go:48-107 | the main key names its agent, and is the key of conversations that are not kept apart |
| `SessionKey.NormalParts` | pkg/routing/session_key.go:48-72 | neither case nor spaces make a difference to a channel or a group's id, nor spaces to a kind; what is blank is the unknown channel or group, and a direct peer |
| `SessionKey.KeysInjective` | pkg/routing/session_key.go:74-107 | in every scope, for direct and group peers, with or without links, on channels, accounts and kinds without a colon: two keys are equal if and only if the agents are, and the conversations are the same place in the eyes of the scope or a group and a direct peer that colons in their ids confuse |
| `SessionKey.NoneConfused` | pkg/routing/session_key.go:74-107 | without colons in the peers' ids none are confused |
| `SessionKey.LinkedIdentity` | pkg/routing/session_key.go:151-181 | a direct peer is known by the name of the first link that lists it, by its id or by channel and id, and by its own id if none does |
| `SessionKey.LinkOrderMatters` | pkg/routing/session_key.go:168-179 | if two links list a peer, who it is depends on which is visited first exactly when their names differ |
| `SessionKey.ColonsCollide` | pkg/routing/session_key.go:74-107 | a colon in a channel makes two conversations share a key |
| `Searching.FirstOfFiltered` | pkg/routing/route.go:125-220 | searching the collected routes finds the first configured one that passes both conditions |
| `Route.HighestTierFirstRoute` | pkg/routing/route.go:49-122 | the message goes to the agent of the first configured route of the highest tier with any match, when that agent's id is not blank; to the default agent when it is blank or no route matches at any tier |
| `Route.ConfiguredAt` | pkg/routing/route.go:125-141 | the routes searched are every route of every agent, agent after agent |
| `Route.ConsideredIff` | pkg/routing/route.go:125-152 | a route is considered if and only if it names the message's channel and account, in any case and with any spaces around them; no account names the default one, a star any |
| `Route.PeerDecidesIff` | pkg/routing/route.go:156-174 | a route for a peer decides exactly for messages of that peer, or of its parent |
| `Route.LowerTiers` | pkg/routing/route.go:176-220 | a route decides for a guild or a team if and only if it names it; without all three it decides at exactly one of the two tiers below |
| `Route.DefaultIsFirstMarked` | pkg/routing/route.go:242-258 | the default agent is the first one marked that has an id, else the first if it has one, else the main agent |
| `Route.KeyNamesAgent` | pkg/routing/route.go:64-84 | the agent part of the session key is the resolved agent if and only if that does not begin with an underscore and end in a dash |
| `Route.KeyMissesCutIds` | pkg/routing/route.go:64-84 | in terms of the configuration: it is not exactly when the deciding route is of an agent whose cleaned id is longer than 64, begins with an underscore and has a dash at the cut |
| `Route.KeyCanMiss` | pkg/routing/route.go:64-84 | there is such a configuration and message |
| `Segments.BoundaryNext` | pkg/tools/shell.go:159-175 | how the last character boundary moves with the limit |
| `Truncation.BoundaryStarts` | pkg/tools/shell.go:166-172 | the byte before the limit belongs to the character that begins at the last boundary, and only that byte of it is a start |
| `Truncation.DecodesAtEnd` | pkg/tools/shell.go:166-172 | what decoding from there says: whole, cut short, or the replacement character |
| `Truncation.KeptOfValid` | pkg/tools/shell.go:159-175 | cutting off an undecodable end leaves, of a valid text, the whole characters up to the limit |
| `Truncation.ValidIsEncoded` | pkg/tools/shell.go:159-175 | all valid text is the encoding of code points as RFC 3629 has it |
| `Truncation.EncodedIsValid` | pkg/tools/shell.go:159-175 | and every such encoding is valid |
| `Truncation.SizeIsEncoded` | pkg/tools/shell.go:166-172 | every character is the bytes of a code point |
| `Truncation.Truncate` | pkg/tools/shell.go:159-175 | unchanged within the limit; else of any bytes at most four before the limit are cut, and only an end that does not decode; of valid text the whole characters up to the limit stay but for a replacement character right before it, at most three bytes short, and the result is valid UTF-8 |

## Left out

- SessionRuns.ReplayGivesHistory: a run creates a session only on a path that no live session has and with metadata that fits the scanner; `SessionRuns.PathCollision` and `SessionRuns.LongMetadataLosesSession` are about the others. A failed restart ends the run.
- Failing reads and writes of the session log, torn appends and the sync before the rename: a run has only writes that succeed, and a crash only cuts the temporary file.
- Path cleaning by the operating system: a name with a slash or dots in it is taken as one name.
- JSON itself: `SessionLog.Lawful` states that a record has no newline and reads back as it was; which fields a record has is modelled, how it is written is not.
- State deltas of logged events: the log keeps the state a session was created with, and so does the model.
- LeaseRuns.OneLiveLease: one shared clock for all instances and the database; clock skew between machines and the rounding of stored times are not modelled.
- Heartbeat work, errors of single SQL statements other than "not held", and starting or stopping an instance's goroutines.
- Building requests from conversations (`ConvertContents`, `convertParts`), tool schemas and the non-streaming calls over HTTP.
- OpenAiStream.FinishedReply: the final item carries the finish reason as the stream has it; the table that maps it to the framework's reasons is not modelled.
- OpenAiStream.ApplyCalls: a negative tool-call index, at which the code panics, is not an input of the model.
- The scanner limits of the two stream decoders: a line is given to the model already cut and unmarshalled, and what ends a stream early is one read error.
- Rounding of floating-point tokens and similarities: they are reals here.
- RateLimiters.RateLimiter.Allow: the client limiter's look-up and its take are one step, so a cleanup between the two is not modelled; its second look under the write lock is not either.
- The wording of errors and the duration of attempts in the fallback chain; a single entry, for which the fallback model delegates without a chain.
- FailoverService.Chain.Execute: what a run gives at each position is an argument, for any caller's function; the contexts' deadlines are not modelled, only cancellation is.
- Lower-casing and trimming of search queries: any function from text to text.
- Pruning.PruneMessages: what a tool result's text is taken from when it has no content key is abstract, so the arbitrary order of such a result's keys is not modelled; parts have no other members than text and tool result.
- When a session is compressed (`ShouldCompress`); the prompt of the summary model; a summary is any function of the text given to it.
- CompressionService.Compressor.Compress: the session given is the one replaced; changes made to the stored session between are not modelled.
- Saving jobs to the store, the log of executions, starting from persisted jobs and the timers of the scheduler's loop: a run begins with an empty table.
- The global lane: one channel and one worker that never leaves.
- SessionLane.OneLiveWorker: a worker may time out whenever it waits, not only after five minutes, so the results hold for any timeout.
- SessionKey.KeysInjective: channels, accounts and kinds hold no colon; `SessionKey.ColonsCollide` has one.
- Texts.Lawful: lower-casing is taken character by character, and is assumed to keep id characters, colons and spaces what they are.
- The in-process message bus, which hands messages from channels to sessions through buffered channels.
- Authentication, channel adapters, the web console, tools other than the cut of their output, vector stores and object stores.
- The ring of recent history, trimming of prompt layers, diversification of search results and sums of token counts.
