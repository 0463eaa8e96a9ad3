# Verified model of the feed service core

A Dafny model of the parts of the feed service where order, concurrency, budgets or arithmetic matter:
the job runner protocol, the polite HTTP client, request admission under load, the storage purge, entry
retention, OPML lists, hashed embeddings and ranking, feed statistics, webhook deliveries, HTML stripping
and the bounded body read. `dafny verify dfyconfig.toml` checks everything.

## How to read it

| file | models |
|---|---|
| `jobs.dfy`, `job_protocol.dfy`, `run_job.dfy` | job tables and their transactions; all interleavings of runners; the runner itself |
| `polite_client.dfy`, `bounded_body.dfy` | slots, gap and retry towards one host; the read loop and Retry-After |
| `flood_guard.dfy` | admission tickets, per-address counters, the reserved share |
| `ranked_rows.dfy`, `purge.dfy`, `entries.dfy` | ordered and limited queries; expiry and byte budgets; retention per feed |
| `opml.dfy`, `text.dfy`, `strip_html.dfy` | outline trees; white space and words; tag stripping |
| `embeddings.dfy`, `ranking.dfy` | token hashing, cosine; exchange sort, percentile, top list |
| `feed_stats.dfy`, `webhooks.dfy` | running statistics and health score; the delivery circuit breaker |
| `common.dfy` | optional values, results, cardinality facts |

SQL tables are maps from row ids to rows. Each write transaction is one atomic step, both as a function on
tables and as a method of a class that updates its fields in place and is proved equal to that function.
Concurrent code is a state machine: an event is one atomic step of one runner, call or request, an event
that is not enabled changes nothing, and so every sequence of events is a run and the theorems quantify
over all sequences. Nondeterministic choices (which pending rows a claim returns, which of equally old
rows go first, how long a step takes, whether a transaction commits) are part of the events or parameters.

Assumptions: generated ids and content hashes do not collide; a failed transaction leaves the tables as
they were; a timer never fires early; the clock does not run backwards; each job has exactly one runner,
which is how `internal/api/features.go:101` and `internal/api/features.go:144` spawn them. Floating-point
numbers are reals, and the square root is a parameter `sqrt` that satisfies `IsSqrt`. Which characters
belong to words, and lower-casing, are parameters. The dispatch of an HTTP call is the moment it stamps `last`.

## What the model shows about the code

- Marks are not guarded by the item's status (`internal/store/jobs.go:203-211`, `222-230`). A mark keeps the
  counters exact if and only if the item is still pending or running (`Jobs.UnguardedMarkDrifts`); that it
  always is follows only from the protocol (`JobProtocol.CountersExact`).
- `runJob` drops the error of its last count query (`internal/api/features.go:166`). A failed query reads as
  zero remaining items and the job is marked done; that verdict is right if and only if the query answered
  or nothing was left (`JobProtocol.VerdictRightIff`), and there is a run in which it is wrong.
- The per-host gap does not separate adjacent requests once there are two slots, because the stamp is
  written after the sleep without a second look: adjacent spacing holds if and only if there is one slot or
  no gap (`PoliteClient.AdjacentGapIff`). What holds always is the gap across `perHost + 1` requests.
- The retry after a 429 asks for a second slot while its call still holds the first
  (`internal/httpx/client.go:277`); it can be sent if and only if the host has at least two slots.
- The number of seconds in Retry-After is multiplied without a range check (`internal/httpx/client.go:330`);
  `BoundedBody.PauseRightIff` says for which numbers the pause is right, and that 9223372037 seconds give a
  negative one.
- The share reserved for credentialed clients (`internal/api/flood.go:100-114`) holds against admitted
  anonymous requests, but not against anonymous requests that have counted themselves in and not yet out:
  a credentialed request passes if and only if fewer than `maxConcurrent` requests are live.
- The total-size purge loop (`internal/store/purge.go:84-118`) tests cumulative counters, so once a row was
  deleted, or while there is one to delete, it ends if and only if the file of the empty tables fits the limit.
- The purge raises its counters inside its transactions (`internal/store/purge.go:36-68`, `95-107`) and
  returns them with the error, so a rolled-back transaction leaves them too high. After a failed round they
  are exact if and only if it was not the commit that failed or nothing was left to delete
  (`Purge.PurgeStore.EnforceTotal`); after a failed first transaction they are exact if and only if no
  statement before the failure had deleted a row (`Purge.PurgeStore.ExpireAndFit`).
- A claim whose transaction fails returns the items it had claimed together with the error
  (`internal/store/jobs.go:155-194`); `runJob` ignores them.
- Importing, exporting and importing OPML again is stable if and only if every feed in the tree has a title
  or a text; a feed with neither comes back titled by its url.
- `SimilarFeedsEmbedding` ranks correctly as written from `internal/store/embeddings.go:152` on, but its
  query at `internal/store/embeddings.go:141-143` has a placeholder without an argument, so whether the
  ranking is reached depends on the driver. The model starts behind the query.

## Model

| member | source | states |
|---|---|---|
| Jobs.JobStore.CreateJob | internal/store/jobs.go:61-88 | In place or not at all, a job of this kind and creator with zero counters and one pending item for each url is added; an empty list of urls is allowed |
| Jobs.JobStore.SetJobStatus | internal/store/jobs.go:133-144 | One job has the given status and its other columns are as before; an unknown job changes nothing |
| Jobs.JobStore.SelectPending | internal/store/jobs.go:157-160 | The claim query returns distinct pending items of the job, as many as the limit allows |
| Jobs.JobStore.ClaimPendingItems | internal/store/jobs.go:155-194 | Exactly the returned items become running as of now and keep their other columns, all were pending items of the job, and their number is the limit or all there are; a failed call changes nothing but may still hand back some of them |
| Jobs.JobStore.MarkItemDone | internal/store/jobs.go:197-213 | One item becomes done with this feed and keeps its url and error, and the counter of its own job grows by one, whatever the item's status was; an unknown item is an error and changes nothing |
| Jobs.JobStore.MarkItemFailed | internal/store/jobs.go:216-232 | The same for a failed item, its error and the other counter |
| Jobs.JobStore.JobPendingRemaining | internal/store/jobs.go:235-241 | The number of pending and running items, and zero when the query fails |
| Jobs.JobStore.ReclaimStaleJobItems | internal/store/jobs.go:244-262 | Exactly the running items of any job older than the age go back to pending, with their other columns as before, and their number is returned |
| Jobs.StaleAge | internal/store/jobs.go:245-247 | An age of at least a minute is kept, a smaller one becomes fifteen minutes |
| Jobs.CreateWrites | internal/store/jobs.go:68-86 | Column by column, what creating a job writes |
| Jobs.SetStatusWrites | internal/store/jobs.go:133-144 | Column by column, what setting a status writes |
| Jobs.ClaimWrites | internal/store/jobs.go:177-190 | A claim changes status and time stamp of the claimed items and nothing else |
| Jobs.MarkWrites | internal/store/jobs.go:197-232 | A mark writes status, feed or error, time stamp and one counter, and nothing else |
| Jobs.ReclaimWrites | internal/store/jobs.go:251-254 | A reclaim changes status and time stamp of the running items idle for longer than the age, 900 seconds if it is below 60, and nothing else |
| Jobs.InsertedRows | internal/store/jobs.go:76-84 | Inserting items under distinct ids adds exactly those rows, each pending with its own url, and overwrites none of the others |
| Jobs.CreateIsNewJob | internal/store/jobs.go:61-88 | A created job has total equal to its number of items, zero counters, and leaves older rows alone |
| Jobs.NewJobCounts | internal/store/jobs.go:61-88 | Creating a job keeps the counters of all jobs exact |
| Jobs.TotalSplits | internal/store/jobs.go:235-241 | With exact counters total is done plus failed plus remaining |
| Jobs.ShuffleCounts | internal/store/jobs.go:155-194 | Moving items between pending and running keeps every counter exact and every job's live items |
| Jobs.MarkCounts | internal/store/jobs.go:197-232 | Marking a live item keeps all counters exact, takes one item off the live ones and no other |
| Jobs.UnguardedMarkDrifts | internal/store/jobs.go:203-230 | A mark leaves its job exactly counted if and only if the item was still live |
| JobProtocol.StepKeeps | internal/api/features.go:148-170 | Every step of every runner keeps the invariant that ties each runner's batch and the counters to the item table |
| JobProtocol.MarkKeeps | internal/api/features.go:157-165 | A mark, committed or lost, keeps it although the marked item may have been reclaimed to pending meanwhile |
| JobProtocol.ReclaimKeeps | internal/store/jobs.go:244-262 | A reclaim that takes running items from other jobs' runners keeps it |
| JobProtocol.CountersExact | internal/store/jobs.go:155-262 | In every run done_count, failed_count and total are the numbers of done, failed and all items |
| JobProtocol.NoItemCountedTwice | internal/api/features.go:152-165 | In every run the committed marks name different items, and these are exactly the terminal ones |
| JobProtocol.StepProgresses | internal/store/jobs.go:155-262 | No step changes a terminal item, an item's job or url, or a job's kind, creator or total, or adds to a job's live items |
| JobProtocol.TerminalForever | internal/api/features.go:152-165 | A done or failed item stays as it is in every continuation of every run |
| JobProtocol.DoneMeansFinished | internal/api/features.go:166-169 | A job marked done after an answered count has nothing left, and done plus failed equals total from then on |
| JobProtocol.VerdictRightIff | internal/api/features.go:166-169 | In every run, the runner's final verdict is right if and only if the count query answered or nothing was left |
| JobProtocol.BlindVerdict | internal/api/features.go:166-169 | In any run with items left at the count, a failed query and a committed completion mark the job done wrongly |
| JobProtocol.BlindCompletionHappens | internal/api/features.go:152-169 | Such a run exists, with the only item of the job still pending |
| JobProtocol.ClaimsBounded | internal/api/features.go:152-165 | In every run a runner makes at most as many non-empty claims as its job has items plus marks that did not commit, plus the one in progress |
| JobProtocol.RunnersCount | internal/api/features.go:152-165 | The claims and lost marks of a runner are those of the run |
| JobProtocol.AtMostEight | internal/api/features.go:153 | In every run no runner holds more than eight items |
| JobProtocol.BegunJobRuns | internal/api/features.go:151 | In every run a job is running once its runner has begun |
| JobProtocol.BlindIff | internal/api/features.go:166 | In every run a runner is blind if and only if its count query failed |
| JobProtocol.NothingStaleAfterReclaim | internal/api/features.go:150 | In every run, after a reclaim no item of any job has been running for more than fifteen minutes |
| JobProtocol.ClockRuns | internal/store/jobs.go:251-254 | The clock of a run shows the time that has elapsed |
| JobProtocol.FreshClaimsSurviveReclaim | internal/store/jobs.go:244-262 | In every run, an item in a runner's batch that was claimed at most fifteen minutes ago is running and carries the time of the claim |
| RunJob.RunJob | internal/api/features.go:148-170 | The runner always ends, its steps are a run of the protocol, and if all store calls succeed the job is done with every item counted |
| RunJob.ClaimLoop | internal/api/features.go:152-165 | The claim loop ends, and if all store calls succeed no live item is left |
| RunJob.MarkAll | internal/api/features.go:157-165 | The marks of a batch take exactly its items off the running ones when they commit |
| RunJob.CountAndComplete | internal/api/features.go:166-169 | The job is completed when the count is zero or failed, and otherwise left alone |
| PoliteClient.Normalise | internal/httpx/client.go:88-99 | Usable options are kept, unusable ones become two slots and 200 milliseconds |
| PoliteClient.GapWait | internal/httpx/client.go:249-251 | Sleeping the computed time ends exactly a gap after `last`; not having to sleep means the gap has passed |
| PoliteClient.HostGate.CheckGap | internal/httpx/client.go:248-261 | The check under the lock stamps at once or leaves the stamp and says how long to sleep |
| PoliteClient.GetOnce | internal/httpx/client.go:220-278 | A call without interference, cut short anywhere or not, gives its slot back, sends exactly when it has a slot and is not cut short, at the exact moment the gap and its delays allow, and sends its retry only if another slot is free, after the pause asked for |
| PoliteClient.StepKeeps | internal/httpx/client.go:235-278 | Every step keeps the invariant: slots counted, each waiting call timed behind all dispatches before its slot, and few early calls behind each dispatch |
| PoliteClient.SendKeeps | internal/httpx/client.go:260-261 | Stamping without a second look at `last` keeps it |
| PoliteClient.TooManyKeeps | internal/httpx/client.go:270-278 | The nested retry that keeps its slot keeps it |
| PoliteClient.LateComer | internal/httpx/client.go:235-261 | Of `perHost` dispatches after a given one, one belongs to a call that got its slot after it |
| PoliteClient.GapAcrossSlots | internal/httpx/client.go:235-261 | In every run any `perHost + 1` consecutive dispatches span at least the gap |
| PoliteClient.WindowHoldsAtMostPerHost | internal/httpx/client.go:235-261 | In every run no window up to a gap long holds more than `perHost` dispatches |
| PoliteClient.CheckOutcome | internal/httpx/client.go:248-261 | The check sends at once if the gap has passed, and else sleeps exactly until it has |
| PoliteClient.WakeOutcome | internal/httpx/client.go:254-261 | A call that has slept sends, whatever was dispatched meanwhile |
| PoliteClient.ElapseOutcome | internal/httpx/client.go:248-261 | Time passing changes the clock and nothing else |
| PoliteClient.RetryAfterPause | internal/httpx/client.go:270-277 | In every run a retry is dispatched no earlier than the pause after the answer to its call |
| PoliteClient.AdjacentGapIff | internal/httpx/client.go:248-261 | The gap separates all adjacent dispatches if and only if there is one slot or no gap |
| PoliteClient.TwoSentTogether | internal/httpx/client.go:248-261 | With two slots two calls sleep out the same stamp and are dispatched at the same time |
| PoliteClient.RetryNeedsSecondSlot | internal/httpx/client.go:270-278 | Some run sends a retry if and only if the host has at least two slots |
| BoundedBody.ReadBody | internal/httpx/client.go:280-307 | For any chunking, the whole body is returned if and only if it fits the limit and the stream did not break, in an array of its own |
| BoundedBody.Append | internal/httpx/client.go:288 | Appending extends the contents, in place or in a new array |
| BoundedBody.PauseRightIff | internal/httpx/client.go:321-347 | For exactly which Retry-After headers the pause is the capped one that was asked for, in nanoseconds modulo 2^64 |
| BoundedBody.PauseValues | internal/httpx/client.go:321-347 | The pause in nanoseconds: none for the past, at most a minute, the fallback without a usable header |
| Tickets.TakeKeeps | internal/api/flood.go:100-101 | A ticket one above the count keeps at most `limit` live holders within every `limit` |
| Tickets.FewerKeeps | internal/api/flood.go:101 | So does giving tickets back in any order |
| FloodGuard.PublicLimit | internal/api/flood.go:44-59 | The public share is at least one and within the limit, all of it without a reserve, the rest beside a possible reserve, and one beside an impossible one |
| FloodGuard.ConnLimit | internal/api/flood.go:124-129 | The cap per address is the smaller of the configured caps that apply |
| FloodGuard.Guard.constructor | internal/api/flood.go:26-41 | Usable limits are kept, others become 4096 and 64, and the guard starts empty |
| FloodGuard.Guard.Handle | internal/api/flood.go:97-143 | A request without interference gives back every count it took, on every exit; it is overloaded exactly when the public share or the whole limit is in flight, and otherwise the verdict is that of the first check that fails |
| FloodGuard.StepKeeps | internal/api/flood.go:100-143 | Every step of every request keeps the counters equal to their live holders and the tickets fair |
| FloodGuard.CountersExact | internal/api/flood.go:100-123 | In every run the counters equal the live requests holding them, and are zero when none is live |
| FloodGuard.TicketBound | internal/api/flood.go:100-101 | In every run at most `limit` live requests hold a ticket within `limit`, for every limit |
| FloodGuard.AdmittedBound | internal/api/flood.go:102-112 | In every run the admitted requests respect the limit, and the admitted anonymous ones the public share |
| FloodGuard.RunningBound | internal/api/flood.go:119-133 | In every run the running handlers of an address respect its cap, and the anonymous ones the smaller public cap |
| FloodGuard.ReserveHolds | internal/api/flood.go:98-112 | While fewer than the reserved number of live requests are anything but admitted anonymous ones, a credentialed request passes |
| FloodGuard.PassesIff | internal/api/flood.go:100-112 | A credentialed request passes if and only if fewer than `maxConcurrent` requests are live |
| FloodGuard.AdmittedIff | internal/api/flood.go:100-112 | In every run an arriving request passes the global check if and only if fewer requests are live than the public share, or the whole limit, allows |
| FloodGuard.ServedIff | internal/api/flood.go:114-143 | In every run a request past the global check is served if and only if it is allowed and fewer of its address are counted than its cap |
| FloodGuard.BurstDefeatsReserve | internal/api/flood.go:98-112 | For every configuration a run exists in which only anonymous requests are live and a credentialed one is shed |
| RankedRows.SelectFirst | internal/store/purge.go:60-62 | An ordered and limited query returns as many rows as the limit allows, none behind a row left out |
| Purge.PurgeStore.DeleteExpired | internal/store/purge.go:30-52 | Exactly the entries, full texts and favicons whose stamp is more than their hours ago go, a row without a stamp stays, and the counters are the numbers of rows gone, as far as the deletes succeed |
| Purge.FreshMeans | internal/store/purge.go:30-52 | What expiry leaves is exactly the rows that are not too old, by their stamps |
| Purge.SumBytes | internal/store/purge.go:54-57 | The sum of the sizes, whatever the order of the rows |
| Purge.PurgeStore.EvictBatch | internal/store/purge.go:58-75 | One batch extends a least recently used eviction, and without it the budget is exceeded |
| Purge.PurgeStore.EnforceFulltextBudget | internal/store/purge.go:53-76 | The loop ends within a non-negative budget unless a statement fails; up to then no text that stays was accessed before one that went, the last batch was needed, and every row was counted |
| Purge.PurgeStore.ExpireAndFit | internal/store/purge.go:29-80 | The first transaction does all of this or nothing; its counters are all zero if and only if no statement before the failure had deleted a row |
| Purge.PurgeStore.TotalRound | internal/store/purge.go:86-110 | A round deletes a batch of oldest full texts or, if there is none, of oldest entries |
| Purge.PurgeStore.TryRound | internal/store/purge.go:86-114 | A round that fails at its commit leaves the tables alone and the counters too high by the rows it had deleted |
| Purge.PurgeStore.EnforceTotal | internal/store/purge.go:83-119 | If empty tables fit, the loop ends within one round per batch plus one and makes no round without need, only oldest rows go and entries only after all full texts; the counters are exact without a failure, and after one if and only if it was not a commit or nothing was left to delete |
| Purge.PurgeStore.PurgeAll | internal/store/purge.go:21-130 | No row older than its hours survives, of the others only those with the oldest stamps go and an entry only when no full text is left, full texts and file fit their budgets, the rounds are bounded and the last round and last batch were needed; the counters are exact except as said after a failure |
| Purge.RoundsIsCeiling | internal/store/purge.go:83-119 | The bound on the rounds is the rounded-up quotient of rows and batch size |
| Purge.EndsInTime | internal/store/purge.go:83-119 | If empty tables fit, no execution of the loop makes more rounds than there are rows |
| Purge.GoesOn | internal/store/purge.go:83-119 | If they do not, there is an execution of every length |
| Purge.EndsIff | internal/store/purge.go:83-119 | The loop is sure to end if and only if empty tables fit the limit, or there is nothing to delete and nothing was deleted before |
| Purge.Batch | internal/store/purge.go:22-24 | A batch size of at least 100 is kept and a smaller one becomes 1000 |
| Entries.SameIdIff | internal/store/feeds.go:72-79 | Two items are the same entry if and only if they are of one feed and share the guid, or the url for want of one |
| Entries.UpsertedRow | internal/store/feeds.go:183-205 | After all upserts no row is lost, each row with an item has the title of its last one, and rows without an item are as before |
| Entries.UpsertedColumns | internal/store/feeds.go:193-200 | A row keeps its publication time and image until an item brings new ones, and then has the last that was brought |
| Entries.OtherFeedsUntouched | internal/store/feeds.go:183-205 | Upserts touch no row of another feed |
| Entries.EntryStore.RegisterFeed | internal/store/feeds.go:82-107 | A new feed starts with entry_count zero and a known one keeps its count |
| Entries.EntryStore.ReplaceEntries | internal/store/feeds.go:181-222 | Of this feed the newest of the upserted rows stay, by publication and then fetch time, as many as the limit allows, other feeds keep their rows, and entry_count is the number of rows left |
| Entries.ReplacedMeans | internal/store/feeds.go:206-217 | What the cut keeps and drops, by the stamps of the rows |
| Entries.RegisterCoversIff | internal/store/feeds.go:82-107 | Registering keeps entry_count at or above the rows if and only if the feed is known or has no rows |
| Entries.PurgeCovers | internal/store/purge.go:30-36 | Deleting entries keeps entry_count at or above the number of rows |
| Entries.CountsCoverRows | internal/store/feeds.go:181-222 | Over every run with purges entry_count is at least the number of rows of each feed |
| FeedStats.StatsStore.RecordFetch | internal/store/feeds.go:148-178 | The catalog row changes only if it exists, the streak row is created or updated in any case, or nothing changes |
| FeedStats.FeedSummarises | internal/store/feeds.go:151-168 | After any history fetch_count is its length, fail_count its failures, and average times count its exact latency sum |
| FeedStats.RowsReflectOwnFetches | internal/store/feeds.go:148-178 | In every run of the store the rows of a feed are the fold of its own committed fetches, whatever is recorded for other feeds |
| FeedStats.StoreSummarises | internal/store/feeds.go:148-178 | In every run of the store the rows of a feed that was fresh hold the number, failures, latency sum and trailing runs of its own fetches |
| FeedStats.StreaksAreTrailingRuns | internal/store/feeds.go:169-178 | Both streaks are the trailing runs of the history and exactly one is positive |
| FeedStats.TrailingRunUnique | internal/store/feeds.go:169-178 | A history has one trailing run of each kind |
| FeedStats.ComputeHealthScore | internal/store/health.go:242-266 | The points of every penalty, cut at zero; the upper cut and the rounding have nothing to do |
| FeedStats.FaultsCost | internal/store/health.go:242-266 | Every single fault costs its own points, as long as any are left |
| FeedStats.PerfectScore | internal/store/health.go:242-266 | The score is 100 if and only if the feed has no fault |
| FeedStats.ThirteenFailuresIff | internal/store/health.go:244 | A fail streak forces the score to zero whatever else is known if and only if it is at least thirteen |
| FeedStats.FailingFeedScoresZero | internal/store/health.go:242-266 | A feed whose last thirteen fetches failed scores zero |
| Webhooks.WebhookStore.CreateWebhook | internal/store/webhooks.go:29-50 | A webhook starts active with no failures |
| Webhooks.WebhookStore.RecordWebhookDelivery | internal/store/webhooks.go:178-208 | A delivery is logged in any case and changes only its own webhook, or nothing changes |
| Webhooks.FailCountIsTrailingRun | internal/store/webhooks.go:189-205 | fail_count is the length of the trailing run of failures, for every history |
| Webhooks.ActiveIffNeverTripped | internal/store/webhooks.go:196-205 | A webhook is active if and only if its history has no twenty consecutive failures |
| Webhooks.ActiveInNumbers | internal/store/webhooks.go:187-205 | The same in numbers: twenty statuses in a row outside 200 to 299 |
| Webhooks.LastStatus | internal/store/webhooks.go:188-205 | last_status is that of the last delivery |
| Webhooks.DeactivationIsPermanent | internal/store/webhooks.go:178-208 | No later delivery makes an inactive webhook active |
| Webhooks.RowReflectsOwnDeliveries | internal/store/webhooks.go:178-208 | In every run of the store the row of a webhook is the fold of its own committed deliveries |
| Webhooks.StoreBreaker | internal/store/webhooks.go:29-208 | In every run of the store a new webhook stays active if and only if its own deliveries hold no twenty failures in a row |
| Text.TrimTight | internal/opml/opml.go:125-133 | Trimming removes exactly the white space at both ends |
| Text.SpacesAreWhite | internal/parse/feed.go:163 | The spaces are the characters with the Unicode property White_Space |
| Opml.Walk | internal/opml/opml.go:65-92 | The walk appends the flattening of the nodes to what it was given |
| Opml.FlattenMeans | internal/opml/opml.go:65-92 | Flattening lists exactly the feeds in pre-order, each under its own category or the titles of its titled ancestors without a url |
| Opml.TitleIsLabel | internal/opml/opml.go:68-70 | A node is known by its title, or by its text if the title is blank, and is a feed if and only if it has a url |
| Opml.TwoFolders | internal/opml/opml.go:81-87 | The path of a folder in a folder |
| Opml.FolderPathTight | internal/opml/opml.go:80-87 | An inherited category needs no trimming |
| Opml.Export | internal/opml/opml.go:95-123 | One outline for each item with a url, in order, with the item's columns and its title, or its url for want of one, as text |
| Opml.ExportWrites | internal/opml/opml.go:103-116 | Column by column, what is written for each item |
| Opml.RoundTrip | internal/opml/opml.go:65-123 | Flattening what export built gives the input without items lacking a url, every field trimmed, untitled items titled by their url |
| Opml.NormalAllIff | internal/opml/opml.go:95-133 | A list survives export and import unchanged if and only if each of its items is trimmed, titled and has a url |
| Opml.ExportImportStable | internal/opml/opml.go:65-123 | From the first export and import on nothing changes any more |
| Opml.ImportExportImportIff | internal/opml/opml.go:65-133 | Import, export and import give the first import if and only if every feed in the tree has a title or a text |
| Opml.UntitledFeedChanges | internal/opml/opml.go:65-133 | A tree of one feed without title and text is changed by export and import |
| Opml.UntitledIff | internal/opml/opml.go:125-133 | An imported feed lacks a title if and only if its node has neither title nor text |
| StripHtml.StripHtml | internal/parse/feed.go:146-174 | The result is the words of the text outside tags joined by single blanks |
| StripHtml.OutsideSkipsTag | internal/parse/feed.go:152-160 | A tag contributes nothing, even one never closed, and text resumes behind it |
| StripHtml.OutsidePlainText | internal/parse/feed.go:152-172 | Text without angle brackets passes through whole |
| StripHtml.StrippedIsClean | internal/parse/feed.go:146-174 | No angle bracket and no leading, trailing or doubled white space is left |
| StripHtml.StripIdempotent | internal/parse/feed.go:146-174 | Stripping twice is stripping once |
| Text.WordsSplit | internal/parse/feed.go:161-172 | White space separates words, whatever is around it |
| Text.WordsOfJoined | internal/parse/feed.go:161-172 | Joining words by single blanks and splitting gives them back |
| Embeddings.Tokenize | internal/store/embeddings.go:41-60 | The tokens are the maximal runs of word characters of at least two bytes in the lower-cased text |
| Embeddings.TokensSplit | internal/store/embeddings.go:41-60 | A separator splits a text into independent parts |
| Embeddings.TokensOfRun | internal/store/embeddings.go:41-60 | An unbroken run is one token, or none if it is too short |
| Embeddings.HashBytes | internal/store/embeddings.go:62-69 | The loop computes the FNV-1a hash of the bytes |
| Embeddings.FnvCheckValue | internal/store/embeddings.go:62-69 | The hash has the published check value of 32-bit FNV-1a for "a" |
| Embeddings.FnvExtends | internal/store/embeddings.go:64-67 | The hash takes the bytes in order |
| Embeddings.EncodeConcat | internal/store/embeddings.go:64-66 | A text is encoded character by character, in order |
| Embeddings.EncodeOne | internal/store/embeddings.go:64-66 | A character is encoded by its UTF-8 bytes |
| Embeddings.Utf8Decodes | internal/store/embeddings.go:64-66 | The bytes of a character decode to it (section 3 of RFC 3629) |
| Embeddings.AddToken | internal/store/embeddings.go:19-24 | A token adds one, signed by the parity of a second hash, at the coordinate its hash names, and nothing elsewhere |
| Embeddings.HashEmbed | internal/store/embeddings.go:15-39 | The vector built in place has 64 coordinates; each times the length is the signed count of tokens, or is that count if the length is next to nothing |
| Embeddings.EmbeddingMeans | internal/store/embeddings.go:27-38 | The same of the embedding as a function of the tokens |
| Embeddings.TextsAdd | internal/store/embeddings.go:15-28 | Vectors before scaling add up when two texts are joined by a separator |
| Embeddings.ListsAdd | internal/store/embeddings.go:15-28 | Vectors before scaling add up when two lists of texts are joined |
| Embeddings.EmbeddingBag | internal/store/embeddings.go:15-39 | The embedding depends only on how often each token occurs |
| Embeddings.UnitOrZero | internal/store/embeddings.go:29-38 | An embedding is the zero vector or has squared length exactly one |
| Embeddings.ComputeCosine | internal/store/embeddings.go:82-101 | The result times the product of both lengths is the dot product, on the common prefix; it is zero if that product is below 1e-12 |
| Embeddings.CauchySchwarz | internal/store/embeddings.go:82-101 | The squared dot product is at most the product of the squared lengths |
| Embeddings.CosineBounds | internal/store/embeddings.go:82-101 | The cosine is symmetric and between -1 and 1 for vectors of any lengths |
| Embeddings.SelfSimilarity | internal/store/embeddings.go:82-101 | The cosine of a vector with itself is one, or zero if the vector is next to nothing |
| Embeddings.CosineMeans | internal/store/embeddings.go:96-100 | The same of the cosine as a function |
| Embeddings.DotUnit | internal/store/embeddings.go:91-92 | Against a unit vector the dot product reads off a coordinate |
| Embeddings.DotLinear | internal/store/embeddings.go:91-92 | The dot product is linear |
| Embeddings.OrthogonalCosine | internal/store/embeddings.go:82-101 | Orthogonal vectors have cosine zero |
| Embeddings.NegatedCosine | internal/store/embeddings.go:82-101 | Negating one vector negates the cosine |
| Embeddings.ScaledCosine | internal/store/embeddings.go:82-101 | Scaling one vector by a positive factor leaves the cosine alone while neither product of lengths is tiny |
| Ranking.ExchangeSort | internal/store/health.go:126-133 | The in-place exchange sort yields an ordered permutation |
| Ranking.SortWorstFirst | internal/store/health.go:126-133 | The page is permuted into ascending order of score |
| Ranking.Percentile | internal/store/health.go:219-240 | The result is a sample with enough samples on either side for its rank; zero without samples; the samples stay as they are |
| Ranking.PercentileIndex | internal/store/health.go:232-238 | The clamped index is one below the nearest rank |
| Ranking.ClampsIdle | internal/store/health.go:232-238 | For 0 < p <= 1 the rank is the least whole number that is at least p n, without either clamp |
| Ranking.RankAt | internal/store/health.go:232-238 | The rank is the first or the last at the ends and in between the least that is not below the position |
| Ranking.PercentileMonotone | internal/store/health.go:219-240 | Percentiles of the same samples grow with p, so the median is at most the 99th |
| Ranking.RankMonotone | internal/store/health.go:219-240 | A rank statistic is unique and grows with the rank |
| Ranking.QualifyingIff | internal/store/embeddings.go:153-162 | A feed qualifies if and only if it is a candidate whose cosine reaches the minimum score |
| Ranking.QualifyingCount | internal/store/embeddings.go:153-162 | As many feeds qualify as candidates have a sufficient cosine |
| Ranking.RankSimilar | internal/store/embeddings.go:152-172 | The list is descending, holds the limit or all that qualify, all of sufficient score, and nothing dropped scores above anything kept |

## Left out

- HTTP transport, DNS and address checks, DuckDB, full-text search SQL, S3, XML bytes, feed parsing, JSON, hashes and signatures: input and output or libraries outside the model; OPML stays at tree level.
- Latency samples, strings that are not valid UTF-8 (a string is a sequence of Unicode characters), and the rate limiter's own arithmetic.
- Authentication levels, cache and CORS headers, blocklist contents, WebSub, health summaries, FailJob and the listing queries: single-branch code that would only add easy members.
- PoliteClient.GapAcrossSlots: the rate limiter is an arbitrary delay, and its own rate is not modelled.
- PoliteClient.RetryNeedsSecondSlot: says whether a retry can ever be sent, not that a call ends; a call that waits for a slot ends by cancellation.
- PoliteClient.GetOnce: one call without interference; the protocol covers interference, and the body read is `BoundedBody.ReadBody`.
- JobProtocol.CountersExact: one runner per job; with two runners an item may be marked twice and the counters may exceed the terminal items.
- Jobs.JobStore.CreateJob: result and error columns and time stamps of jobs are not modelled.
- Jobs.JobStore.SetJobStatus: the result and the time stamp of the job are not modelled.
- RunJob.ClaimLoop: runs without interference from other runners, as RunJob does.
- RunJob.RunJob: runs without interference at one clock reading; interference and time are in the protocol.
- Purge.PurgeStore.EnforceTotal: requires that empty tables fit the limit; `Purge.EndsIff` says what happens otherwise. The file size, checkpoint included, is the parameter `size`.
- Purge.PurgeStore.PurgeAll: the same requirement; BytesBefore is the size measured before everything and not modelled.
- Entries.EntryStore.RegisterFeed: of the catalog row only entry_count is modelled.
- Entries.EntryStore.ReplaceEntries: entry ids given by the caller and the uniqueness of guids within a feed are not modelled, because the one caller passes the computed id; summary, author, update time and content hash follow the same two patterns as the modelled columns.
- Ranking.SortWorstFirst: says nothing about feeds outside the page, which was cut by title before the sort.
- Ranking.RankSimilar: the catalog lookups after the ranking, which may drop entries of feeds deleted meanwhile, are not modelled.
- FloodGuard.Guard.Handle: the checks of path, framing and body size before the first counter are not modelled, since they hold no count.
- BoundedBody.ReadBody: reuse of the pooled arrays by other calls is not modelled, only that the result is neither of them.
- Webhooks.WebhookStore.CreateWebhook: of the row only activity, failure count and last status are modelled.
- FeedStats.StatsStore.RecordFetch: status, error, validators and time stamps of the row are not modelled; the average is exact because it is a real number.
