# Tradecast: a verified model of the trade-signal pipeline

Tradecast carries trade events from one MetaTrader account to others: a monitor EA
diffs the open positions and posts signed signals, the server checks and
deduplicates them, stores the latest one per symbol for polling receivers and
queues a job for the notification worker, and a receiver EA copies the trades.
This project models the protocols in that pipeline and proves what every run of
them keeps.

| file | what it models |
|---|---|
| `QueueModel.dfy`, `QueueOrder.dfy`, `QueueAccounting.dfy`, `QueueRetry.dfy`, `QueueCrash.dfy` | the Redis job queue of one symbol as a transition system over any number of workers and cleanups, with crashes and cancellations |
| `Consumer.dfy` | the list commands and the consume and cleanup methods, proved to be runs of that system |
| `Monitor.dfy`, `MonitorSignals.dfy`, `MonitorMirror.dfy`, `MonitorRuns.dfy`, `MonitorCuts.dfy` | `ScanTrades` on its mutable array, exactly which signals it sends, and event sourcing: folding the signals rebuilds the array, and exactly what a death between a signal and the state file tears |
| `Receiver.dfy`, `ReceiverRuns.dfy` | the processed-signal log with in-place compaction and file persistence, and every run of publishes, polls, restarts and deaths between order and log entry |
| `SignalJson.dfy` | the server's JSON text and the receiver's substring searches in it |
| `SignedMessage.dfy`, `SymbolName.dfy`, `Ingest.dfy`, `Publication.dfy` | the signed text, symbol normalisation, the timestamp window with the deduplication key, and store, slot and queue under overlapping requests |
| `Machines.dfy`, `MachineCache.dfy`, `Keys.dfy`, `RateLimit.dfy`, `Scopes.dfy`, `ScopeColumn.dfy` | machine limit and cache, key rotation and interleaved validation, failure counter, scope lists as texts and in their Postgres column |
| `SymbolManager.dfy`, `Backoff.dfy`, `Lots.dfy` | reconciliation of running consumers, retry delays, lot rounding |

`Wrappers.dfy` holds `Option`, `Distinct` and the TTL rule used throughout, `JsonText.dfy` the
texts that are marshalled once or twice.

## Assumptions

- A Redis command and a Redis pipeline are one atomic step; lists, keys and tables do
  not fail and nothing is evicted. A command on a cancelled context does nothing: it
  is a `Crash` or `Drop` step of the queue.
- One clock that never runs backwards. Whether a Redis key still exists at the very
  instant its TTL ends is a parameter, `lastInstant`.
- Job ids are fresh; a handler is an arbitrary outcome, and a pass of the handlers that a
  crash cuts short counts as a pass; a hash or signature is right or
  wrong; a position book does not change during one scan; broker orders are filled.
- JSON texts of jobs and of cached keys are symbolic: a marshalled value decodes to that
  value, and a marshalled byte slice is a JSON string and decodes to neither.

## Where the code and its documentation differ

- "Dead letter queue after max retries" and retries at all: the retry text is marshalled
  twice, so it never decodes. `QueueRetry.DeadLetterReachable` gives the exact condition
  under which the dead-letter list can fill; `QueueRetry.HandlerPassesBounded` shows that
  as written each job meets its handlers at most once without cleanup.
- "Stale job cleanup (crash recovery)": the cleanup exists but the worker never starts
  it, so `QueueCrash.CrashStrandsJob`: a crash strands its job in processing for ever.
  With a cleanup, `QueueCrash.ComesBackIff`: exactly the texts that decode can come back,
  and `QueueCrash.CrashedRetryStays`: a doubly marshalled retry never does.
  `QueueAccounting.CleanupDuplicates` shows what else cleanup would add.
- The replay window: the timestamp is checked against the clock before the deduplication
  key is set. `Ingest.AtMostOnceIff` gives the exact TTL for the longest delay in between;
  `Ingest.DefaultsSafeIff` shows that the default settings replay after any delay.
- "Latest" signal: `Publication.AlwaysFollowsIffSerial`: two overlapping requests for one
  symbol can leave the slot on the older stored signal.
- The failure limit of an address: `RateLimit.MaximumKeptIffSerial`: overlapping requests
  all pass the check before any is counted.
- A changed machine limit or a removed machine "takes effect immediately": the routed
  handlers leave the machine cache alone.  `MachineCache.ChangeInEffectIff` says exactly
  when a change is in effect; `MachineCache.RemovedStillAllowed` and
  `MachineCache.RaisedStillDenied` are runs in which it is not, for exactly five minutes.
- The key cache is marshalled twice as well, so it is never used:
  `Keys.AgreesIffUndecodable`.  Were it marshalled once, a revocation would hold at once
  exactly if no validation overlaps it: `Keys.RevokedIff`.
- Scopes are joined and split without regard to Postgres quoting:
  `ScopeColumn.ScopesKeptIff` says exactly which lists survive.
- An increase of a position's volume is never reported:
  `MonitorRuns.ScanIsAccurate`.

## Model

| member | source | states |
|---|---|---|
| QueueOrder.FirstDequeueOrder | internal/cache/cache.go:75-101 | in every interleaving of arrivals, dequeues, retries, nacks and crashes, the first dequeues follow arrival order, and the never-dequeued jobs wait in the queue in the remaining order |
| QueueOrder.OrderStep | internal/queue/consumer.go:64-185 | every single step of workers, producers and cleanups keeps that order |
| QueueAccounting.JobAccounting | internal/queue/consumer.go:88-135 | in every run, for each job: copies plus outcomes equal one plus the list removals that found nothing, so no job vanishes without an outcome |
| QueueAccounting.OnlyTheRetryWindowLoses | internal/queue/consumer.go:125-134 | a job can be lost without success, dead letter or discard only by stopping a worker between its acknowledgement and its retry push |
| QueueAccounting.ExactlyOncePlace | cmd/worker/main.go:54-72 | without cleanup, as the worker is wired, no removal misses and every arrived job has exactly one copy or exactly one outcome, for any number of workers and crashes |
| QueueAccounting.HeldStep | internal/cache/cache.go:83-93 | every text a worker holds keeps a copy of its own in processing, whatever other workers do |
| QueueAccounting.CleanupDuplicates | internal/queue/consumer.go:169-185 | the snapshot-then-nack race: for every stale job a succeeded job is queued a second time |
| QueueRetry.AttemptsBounded | internal/queue/consumer.go:112-119 | in every run, under either codec, queued and processing texts have used fewer attempts than allowed and dead-lettered ones carry exactly the last |
| QueueRetry.AsWrittenOnlyFirstAttempts | internal/queue/consumer.go:133-134 | crashes and cleanups included, with the doubly marshalled retry text the handlers only ever see attempt 0 |
| QueueRetry.DeadLetterReachable | internal/queue/consumer.go:114-118 | some run fills the dead-letter list if and only if the retry text decodes or no retry is allowed |
| QueueRetry.HandlerPassesBounded | internal/queue/consumer.go:98-135 | without cleanup, counting passes cut short by crashes, a job meets its handlers at most maxRetries times, as written at most once, in every run |
| QueueRetry.QueueDrains | internal/queue/consumer.go:64-135 | from every reachable state the consume loops take boundedly many steps without arrivals or cleanup, and can stop only with an empty queue and idle workers |
| QueueCrash.CrashStrandsJob | cmd/worker/main.go:54-72 | without cleanup, as the worker is wired, in every continuation after a crash the held text stays in processing as its job's only copy, and the job gets no further handler pass and no outcome |
| QueueCrash.ComesBackIff | internal/queue/consumer.go:169-185 | with a cleanup, a text in processing that no worker holds can ever leave it and be queued again if and only if it decodes |
| QueueCrash.CrashedRetryStays | internal/queue/consumer.go:175-179 | a doubly marshalled retry whose worker crashed stays in processing in every continuation, cleanups included |
| QueueModel.RetryText | internal/queue/consumer.go:133-134 | the pushed text still stands for the retried job |
| QueueModel.WeightStep | internal/cache/cache.go:75-109 | the exact change of any sum over the lists and the workers in each step |
| Consumer.RedisLists.DequeueJob | internal/cache/cache.go:83-89 | moves the right end of the queue to the left end of processing, or reports an empty queue |
| Consumer.Consumer.ProcessJob | internal/queue/consumer.go:98-135 | the job succeeds if and only if all handlers do; a failed one is pushed back as its next attempt, left of everything queued, or buried if that was the last attempt, or lost if the worker is cancelled first; each a valid run of the transition system |
| Consumer.Consumer.ConsumeOnce | internal/queue/consumer.go:64-96 | one turn takes the right end of the queue, discards what does not decode and processes the rest as above; a valid run of the transition system that leaves the worker idle |
| Consumer.Consumer.ReQueueStale | internal/queue/consumer.go:169-185 | an undisturbed cleanup moves exactly the stale decodable texts to the left end of the queue, in reverse order, and keeps the others in order |
| Consumer.CleanupConserves | internal/queue/consumer.go:169-185 | cleanup drops and invents nothing and pushes back only stale texts |
| Consumer.CleanupReverses | internal/queue/consumer.go:175-183 | what cleanup pushes back is the mirror image of the stale texts of processing, so the latest dequeued of them is delivered first |
| Consumer.PushedBackIff | internal/queue/consumer.go:175-183 | a text is pushed back if and only if it decodes and was enqueued longer ago than the limit, and kept otherwise |
| Monitor.Monitor.ScanTrades | mql5/MT5Signal_Monitor.mq5:41-139 | the array and the sent signals after a scan, computed from the array and the book; the file is rewritten whenever anything changed |
| Monitor.Monitor.ScanKnown | mql5/MT5Signal_Monitor.mq5:43-119 | one turn of the first loop updates or removes exactly its own element |
| Monitor.Monitor.UpdateTicket | mql5/MT5Signal_Monitor.mq5:48-76 | MODIFY and PARTIAL detection with their tolerances |
| Monitor.Monitor.DropTicket | mql5/MT5Signal_Monitor.mq5:79-118 | the CLOSE signal comes from the newest closing deal, and the element is removed in place |
| Monitor.Monitor.RemoveKnownTicket | mql5/MT5Signal_Monitor.mq5:258-263 | shifting left in place removes exactly one element and keeps the order |
| Monitor.Monitor.DetectOpens | mql5/MT5Signal_Monitor.mq5:122-138 | exactly the positions with an unknown non-zero ticket are added and reported |
| Monitor.Monitor.AddKnownTicket | mql5/MT5Signal_Monitor.mq5:249-256 | appends one element |
| Monitor.Monitor.IsKnownTicket | mql5/MT5Signal_Monitor.mq5:243-247 | finds a ticket if and only if it is known |
| Monitor.Monitor.LoadStateFromFile | mql5/MT5Signal_Monitor.mq5:284-311 | loading keeps exactly the saved tickets that are still open, in order |
| MonitorMirror.ScanMirrors | mql5/MT5Signal_Monitor.mq5:41-139 | folding one scan's signals over a mirror of the array gives a mirror of the new array, plus exactly the tickets that vanished unreported |
| MonitorSignals.ScanSignalsIff | mql5/MT5Signal_Monitor.mq5:41-139 | a scan sends a signal if and only if it is warranted: an OPEN for a position with an unknown ticket, a MODIFY or PARTIAL for a known live one whose stops moved or volume fell by more than the tolerance, a CLOSE for a vanished one whose newest closing deal has a price, each with exactly those fields |
| MonitorSignals.SignalsAreTruthful | mql5/MT5Signal_Monitor.mq5:51-135 | every signal carries the fields of the live position, or of the newest closing deal of its own ticket, and is sent for the reason it names |
| MonitorSignals.FindCloseIff | mql5/MT5Signal_Monitor.mq5:96-109 | a deal is found if and only if it closes this position and no later one does |
| MonitorSignals.FindPositionIff | mql5/MT5Signal_Monitor.mq5:46-48 | a position is found if and only if it has this ticket and no later one has |
| MonitorSignals.StillOpenConcat | mql5/MT5Signal_Monitor.mq5:301-307 | loading treats the saved file piece by piece, so it keeps the order |
| MonitorSignals.StillOpenOne | mql5/MT5Signal_Monitor.mq5:301-307 | one saved ticket is kept if and only if the book holds its position |
| MonitorRuns.FoldRebuildsKnown | mql5/MT5Signal_Monitor.mq5:26-139 | over every run of scans and restarts the fold of all signals agrees with the known tickets, and equals them exactly when nothing vanished unreported |
| MonitorRuns.ScansRebuildKnown | mql5/MT5Signal_Monitor.mq5:41-139 | with every close found in the history, the fold of all signals over an empty mirror is exactly the known-ticket array |
| MonitorCuts.ScanIsReports | mql5/MT5Signal_Monitor.mq5:41-139 | every scan is a series of due reports with the scan's array and signals |
| MonitorCuts.AgreesUnlessTorn | mql5/MT5Signal_Monitor.mq5:61-74 | over every run of reports, restarts and deaths between a signal and its save, the fold agrees with the array on a ticket if and only if its latest stop report, volume report and CLOSE were not cut short |
| MonitorRuns.ScanIsAccurate | mql5/MT5Signal_Monitor.mq5:58-76 | after any run over any books a scan knows exactly the live tickets, each once, with stops within 1e-6; and a volume is within 0.001 if and only if the live one did not grow past the volume last reported for its ticket |
| MonitorRuns.ShrinkingVolumesFollow | mql5/MT5Signal_Monitor.mq5:68-74 | while no volume ever grows, every recorded volume is within 0.001 of the live one after any run |
| Receiver.Receiver.IsAlreadyProcessed | mql5/MT5Signal_Receiver.mq5:269-277 | finds a (ticket, type) if and only if it is logged |
| Receiver.Receiver.MarkAsProcessed | mql5/MT5Signal_Receiver.mq5:279-290 | appends, saves and compacts; file and memory agree afterwards |
| Receiver.Receiver.CleanupOldSignals | mql5/MT5Signal_Receiver.mq5:345-365 | in-place compaction is the order-preserving filter of the entries younger than a day |
| Receiver.Receiver.SaveProcessedSignals | mql5/MT5Signal_Receiver.mq5:292-308 | the file becomes the log |
| Receiver.Receiver.LoadProcessedSignals | mql5/MT5Signal_Receiver.mq5:310-343 | the log becomes the file |
| Receiver.Receiver.PollAndAct | mql5/MT5Signal_Receiver.mq5:48-95 | acts if and only if the slot holds a signal that is not logged |
| Receiver.YoungerMember | mql5/MT5Signal_Receiver.mq5:345-357 | compaction keeps exactly the young entries |
| Receiver.YoungerConcat | mql5/MT5Signal_Receiver.mq5:345-357 | compaction treats the log piece by piece, so it keeps the order and the number of the young entries |
| ReceiverRuns.ActedAtMostOnce | mql5/MT5Signal_Receiver.mq5:48-95 | over every run of publishes, polls, restarts and deaths between order and log entry, signals are acted on in publication order, one that was logged never again, and the next act on its (ticket, type) is at least a day later; without such deaths the acts are a strictly increasing subsequence of the publications |
| ReceiverRuns.ActedOnIff | mql5/MT5Signal_Receiver.mq5:72-86 | a publication is acted on if and only if some poll falls between it and the next one while its (ticket, type) is not logged |
| ReceiverRuns.NewSignalActedOnIff | mql5/MT5Signal_Receiver.mq5:72-95 | after any run, a signal that is published and then polled is acted on if and only if its (ticket, type) is not logged, and is logged in the file afterwards |
| ReceiverRuns.RestartKeepsLog | mql5/MT5Signal_Receiver.mq5:33-39 | a restart between polls changes nothing |
| ReceiverRuns.BlockedAfterAct | mql5/MT5Signal_Receiver.mq5:279-290 | which keys an act leaves blocked, exactly |
| SignalJson.ReceiverReadsBack | mql5/MT5Signal_Receiver.mq5:72-79 | for every validated signal and symbol text the receiver's searches return exactly the encoded fields, and the empty text for an omitted stop |
| SignalJson.RawReadsNumber | mql5/MT5Signal_Receiver.mq5:251-264 | for every object with escaped strings, a number key yields exactly its text, an absent key the empty text |
| SignalJson.StringReadsBody | mql5/MT5Signal_Receiver.mq5:241-249 | for every object with escaped strings, a string key with a quote-free value yields exactly that value |
| SignalJson.ObjectSearch | mql5/MT5Signal_Receiver.mq5:252-255 | a key pattern is found at the member with that key and nowhere else |
| SignalJson.NoMatchInside | internal/signal/handler.go:31-41 | no key pattern matches inside a member, whatever its string value contains |
| SignalJson.EscapeQuotes | internal/cache/cache.go:41-47 | in an escaped text every quote follows a backslash, as section 7 of RFC 8259 demands |
| SignalJson.EscapeLeavesNoControl | internal/cache/cache.go:41-47 | an escaped text contains no control character, as section 7 of RFC 8259 demands, and none of the characters encoding/json keeps out of HTML and JavaScript |
| SignalJson.EscapeRoundTrip | internal/cache/cache.go:41-47 | decoding an escaped text as section 7 of RFC 8259 says returns the original, for every text |
| SignalJson.SignalLookup | internal/signal/handler.go:31-41 | the encoding has exactly the named fields, and the stops only if present |
| SignalJson.StringFind | mql5/MT5Signal_Receiver.mq5:243-246 | returns the first occurrence, or -1 if there is none |
| SignalJson.JSONGetRaw | mql5/MT5Signal_Receiver.mq5:251-264 | the loops compute the specified search |
| SignalJson.JSONGetString | mql5/MT5Signal_Receiver.mq5:241-249 | the loops compute the specified search |
| SignedMessage.MessageUnambiguous | internal/auth/auth.go:51-78 | equal signed messages have equal ticket, type, symbol and timestamp, even if symbols contain colons |
| SignedMessage.NoTimestampInside | internal/auth/auth.go:52-55 | no timestamp of section 5.6 of RFC 3339 starts behind a colon of another one |
| SignedMessage.TimestampAccepted | internal/auth/auth.go:52-55 | every date, time of day, fraction and zone of the right form makes a timestamp, so the statements above cover them all |
| SymbolName.NormalizeIdempotentIff | internal/signal/handler.go:63-69 | normalising a symbol twice changes nothing if and only if no white space stands between its first dot and a non-blank character before it |
| SymbolName.NormalForm | internal/signal/handler.go:63-69 | with all Unicode white space, the normal form is the upper-cased stretch of the symbol from its first non-blank character to its first dot or trailing white space |
| SymbolName.NormalizesToEmptyIff | internal/signal/handler.go:87-93 | a symbol that passed validation normalises to the empty text if and only if every non-blank character of it is a dot or comes behind one |
| SymbolName.UpperCharIs | internal/signal/handler.go:64 | the k-th small letter becomes the k-th capital, and nothing else changes |
| SymbolName.SpaceIff | internal/signal/handler.go:64 | the characters that are trimmed are exactly the 25 that Unicode lists as White_Space |
| Ingest.Handler.SetDedup | internal/cache/cache.go:59-66 | sets the key if and only if it was absent or expired |
| Ingest.Handler.VerifySignal | internal/auth/auth.go:51-71 | the two-sided window and the signature |
| Ingest.Handler.Receive | internal/signal/handler.go:71-168 | the outcome and all updates of one undisturbed request with separate clock readings for the window and for SETNX, as the steps of the interleaved model; OutcomeIs says in which requests each outcome occurs |
| Ingest.OutcomeIs | internal/signal/handler.go:71-123 | over every run, the outcome of each arrival from the request fields alone: a fresh, valid and correctly signed request is a duplicate if and only if an earlier passed one had its ticket and its type and the TTL of that pass has not ended; otherwise it passes with its symbol normalised |
| Ingest.SameKeyFarApart | internal/signal/handler.go:113-123 | over any run two signals of one (ticket, type) past deduplication have their SETNX at least the TTL apart |
| Ingest.AtMostOnceIff | internal/auth/auth.go:51-71 | one signed timestamp passes at most once in every run if and only if the TTL exceeds twice the window and the longest delay between clock reading and SETNX, or equals it and a key lives through its last instant, or there is no TTL, or the window admits nothing |
| Ingest.ReplayPasses | internal/signal/handler.go:95-123 | in every other configuration every correctly signed signal can pass twice |
| Ingest.ReplayStored | internal/signal/handler.go:125-140 | and is then stored twice |
| Ingest.DefaultsSafeIff | internal/config/config.go:93-97 | the defaults are safe if and only if no delay separates clock reading and SETNX and a key lives through its last instant |
| Ingest.StoredCameFromRun | internal/signal/handler.go:87-140 | every stored signal is a valid, correctly signed and fresh arrival with its symbol normalised |
| Publication.StoredAreQueued | internal/signal/handler.go:125-155 | in every interleaving, deaths included, each signal is queued as often as it was stored, less the copies in flight and those lost with their handler |
| Publication.SlotHoldsStored | internal/signal/handler.go:142-144 | in every interleaving a slot holds some stored signal of its symbol |
| Publication.SlotAndQueueFollowStore | internal/signal/handler.go:125-155 | if no two requests for a symbol overlap between insert and push and no handler dies there, the symbol's queue holds its stored signals in order and its slot the last one |
| Publication.AlwaysFollowsIffSerial | internal/signal/handler.go:125-155 | slot and queue follow the store in every run without deaths if and only if requests for one symbol never overlap there, or the window admits nothing |
| Machines.LimitUnderConcurrency | internal/store/store.go:161-200 | with at most K registrations between check and insert, registered plus pending stay within limit - 1 + K in every interleaving with removals |
| Machines.BoundReached | internal/store/store.go:179-191 | that bound is reached |
| Machines.LimitHoldsIffSerial | internal/store/store.go:161-200 | a positive limit holds in every interleaving if and only if no two registrations overlap |
| Machines.RemovalFreesSlot | internal/store/store.go:161-200 | at the limit no registration passes its check until an account is removed, which frees that one slot and leaves every other account |
| Machines.ClaimIsUsedOnce | internal/store/store.go:185-200 | a registration past its check gives up its own claim and no other, whether it inserts or dies |
| MachineCache.VerdictAtMostFiveMinutesOld | internal/auth/auth.go:151-216 | after any run, an allow means the account was registered, and a denial that the limit was full without it, at some moment of the last five minutes |
| MachineCache.VerdictIsTablesIff | internal/auth/auth.go:170-213 | after any run a check agrees with the table if and only if the latest check that asked the table since the last flush has expired or gave the verdict the table gives now |
| MachineCache.ChangeInEffectIff | internal/admin/admin.go:208-213 | a removal or a new limit is in effect at the next check if and only if the latest check that asked the table before it has expired or gave the verdict of the changed table |
| MachineCache.RemovedComesBackIff | internal/auth/auth.go:195-214 | a removed account registers itself again at its next check if and only if that check asks the table and a slot is free |
| MachineCache.RemovedStillAllowed | internal/admin/admin.go:299-316 | a removed account whose slot is taken stays allowed for exactly the rest of its five minutes |
| MachineCache.RaisedStillDenied | internal/admin/admin.go:208-213 | an account refused for want of a slot stays refused for exactly the rest of its five minutes after the limit was raised |
| MachineCache.Service.CheckMachineBinding | internal/auth/auth.go:151-216 | without an account number, allowed if and only if none is registered; with one, the verdict cached in the last five minutes, or else allowed if and only if registered or below the limit, which then registers it and is cached |
| MachineCache.Service.RegisterMachine | internal/store/store.go:161-200 | registers if and only if the account is new and the limit not reached |
| Keys.LinksLeadForward | internal/store/store.go:121-143 | in every reachable table successor links lead to later keys, and exactly the linked keys have a rotation time |
| Keys.ChainAlwaysHasValidKey | internal/auth/auth.go:120-129 | every chain ends at a key that is valid at all times while active, and an active rotated key is valid exactly until its rotation time |
| Keys.RotationNeverLocksOut | internal/store/store.go:121-143 | over any run of creations and rotations, a chain whose own keys had no status change contains a valid key at every time |
| Keys.AgreesIffUndecodable | internal/auth/auth.go:103-136 | validation gives the table's verdict in every run and at every time if and only if a cached text never decodes, as it does as written |
| Keys.CachedAcceptance | internal/auth/auth.go:110-133 | with any interleaving, an accepted key was valid in the table within the last cache TTL and the time a validation takes |
| Keys.RevocationHoldsIff | internal/admin/admin.go:177-181 | once a key is inactive and its entry deleted, it can still be accepted in some continuation if and only if cached texts decode and a validation that read it before has not cached it yet |
| Keys.RevokedIff | internal/admin/admin.go:177-181 | after any run, a key whose status was set to anything but active and whose entry was deleted can still be accepted if and only if cached texts decode and a validation of it is in flight |
| Keys.ReactivatedIff | internal/auth/auth.go:124-129 | after any run, a key set active again whose entry was deleted is accepted if and only if it was not rotated or its rotation time has not passed |
| Keys.EntryDecidesIff | internal/auth/auth.go:110-118 | a cached text decides if and only if it decodes and its TTL has not ended |
| Keys.Service.RotateAPIKey | internal/store/store.go:121-143 | inserts the successor and links the old key to it |
| Keys.Service.CreateAPIKey | internal/store/store.go:61-72 | appends an active key without successor |
| Keys.Service.ValidateKey | internal/auth/auth.go:103-136 | one undisturbed validation, as the read and the store of the interleaved model; undecided by the cache it accepts exactly an active key that is not past its rotation time, and caches it |
| Keys.Service.SetKeyStatus | internal/admin/admin.go:153-184 | changes that one status and nothing else in the table, then drops that key's cache entry |
| RateLimit.CounterIsLatestRun | internal/auth/auth.go:317-341 | in every interleaving the counter is the length of the latest run of recorded failures, or 0 once its window has passed, and a request is refused exactly while a run of the maximum is within its window |
| RateLimit.StoredPositiveIff | internal/cache/cache.go:187-205 | after any run the counter is live if and only if a failure was recorded and less than the window has passed since the last one |
| RateLimit.LatestRunIs | internal/cache/cache.go:187-205 | the run that is counted is the longest one that ends with the last recorded failure and has only gaps shorter than the window |
| RateLimit.CounterBounded | internal/auth/auth.go:319-339 | with at most K requests of one address overlapping, the counter stays within the maximum - 1 + K |
| RateLimit.BoundReached | internal/auth/auth.go:319-339 | that bound is reached |
| RateLimit.MaximumKeptIffSerial | internal/auth/auth.go:319-339 | a positive maximum is kept in every interleaving if and only if requests of one address do not overlap, or no counter is ever kept |
| RateLimit.RefusalsEndWithWindow | internal/auth/auth.go:319-323 | once the maximum is reached with nothing on its way, whatever arrives, a request is refused if and only if less than the window has passed since the last recorded failure |
| RateLimit.Limiter.IncrAuthFailure | internal/cache/cache.go:187-197 | counts one failure and renews the window |
| RateLimit.Limiter.GetAuthFailures | internal/cache/cache.go:199-205 | the live count, or 0 |
| RateLimit.Limiter.Authenticate | internal/auth/auth.go:317-341 | refusal and recording of one undisturbed request, as check and record of the interleaved model |
| Scopes.ScopesRoundTripIff | internal/store/store.go:551-570 | parsing the text as it was printed returns the same scopes if and only if all are non-empty, comma-free and trimmed and no brace stands at either end |
| ScopeColumn.ColumnHoldsIff | migrations/001_initial_schema.sql:9 | the TEXT[] column holds exactly the printed scopes if and only if each is non-empty, not the word NULL, free of commas, quotes, backslashes, braces and U+0000, and without white space at its ends |
| ScopeColumn.ArrayRoundTrip | migrations/001_initial_schema.sql:9 | Postgres reads back every array of texts that it prints, nulls, quotes and backslashes included |
| ScopeColumn.ScopesKeptIff | internal/store/store.go:551-570 | the column holds the issued scopes and a loaded key has them if and only if each is also free of white space |
| ScopeColumn.ReloadQuotes | internal/store/store.go:558-570 | a stored scope with white space inside comes back with quotes around it |
| ScopeColumn.ReloadHidesColumn | internal/store/store.go:551-570 | two scopes that look like one quoted element come back although the column holds a single other scope |
| Scopes.ParsePostgresArray | internal/store/store.go:558-570 | the loop computes the trimmed non-empty pieces |
| Scopes.HasScope | internal/auth/auth.go:138-145 | true if and only if the scope is in the list |
| SymbolManager.Manager.Sync | internal/symbols/manager.go:66-95 | a successful load makes the running symbols exactly the loaded ones, a failed one changes nothing, and a symbol that stays keeps its context |
| SymbolManager.Manager.Start | internal/symbols/manager.go:40-63 | after any number of ticks the running symbols are the last list that loaded |
| SymbolManager.LastLoadedIff | internal/symbols/manager.go:114-132 | a symbol is in the list that loaded last if and only if some load gave it (the cached list, else the active rows, else the defaults for an empty table) and every later load failed |
| SymbolManager.Manager.StartLocked | internal/symbols/manager.go:103-111 | starting is idempotent and creates one context |
| SymbolManager.Manager.StopOthers | internal/symbols/manager.go:88-94 | cancels exactly the contexts of the symbols that are not wanted |
| SymbolManager.Manager.AddSymbol | internal/queue/consumer.go:38-47 | keeps the consumer's list duplicate-free |
| SymbolManager.LiveContexts | internal/symbols/manager.go:81-94 | a running symbol has exactly one live context, a stopped one none |
| Backoff.Delay | internal/queue/consumer.go:137-146 | at most the cap and at least the capped exponential |
| Backoff.DelayDoubles | internal/queue/consumer.go:137-146 | the first delay is the base plus the jitter; below the cap each attempt doubles what is not jitter |
| Backoff.NeverShorterIff | internal/queue/consumer.go:137-146 | delays never shrink whatever the jitter if and only if the raw delay has outgrown the jitter or the next one is capped |
| Backoff.TotalWaitBounded | internal/queue/consumer.go:112-131 | total waiting over n retries is within n caps and within the geometric series plus n jitters |
| Lots.OpenNearIff | mql5/MT5Signal_Receiver.mq5:98-103 | an opened copy is within half a step of the wanted lot if and only if that lot is within half a step of the broker's limits |
| Lots.OpenIsClosest | mql5/MT5Signal_Receiver.mq5:98-103 | no volume that the broker takes is closer to the wanted lot than the opened one |
| Lots.CopyInSteps | mql5/MT5Signal_Receiver.mq5:188-226 | for every wanted lot and any non-negative targets the copy stays a whole number of steps, never negative and never more than was opened |
| Lots.CopyFollowsSource | mql5/MT5Signal_Receiver.mq5:188-226 | after PARTIALs with falling targets the copy is within half a step of the last target if and only if that target is not more than half a step above the opened volume |

## Left out

- HTTP routing, CORS, logging, health check, dashboard, metrics and list endpoints: plumbing with no protocol of its own.
- Telegram, WhatsApp, webhook and copier handlers: network clients, reduced to success or failure.
- Field validation (`validate`) and JSON decoding of a request: a flag of the request, because the checks are independent comparisons.
- SHA-256, HMAC, bcrypt, JWT and UUIDs: library primitives, reduced to right or wrong and to freshness.
- The MT4 EAs: they repeat the MT5 logic; only how the MT4 receiver finds a copy differs.
- Redis and database errors: the code fails open on many of them, which only adds one-line branches; a failed signal insert is modelled.
- API-key cache eviction and machine-cache eviction: an evicted entry only makes the next check read the table.
- Number formatting and parsing, in JSON and in the state files: number texts are opaque, and the monitor's file keeps its values exactly.
- SendSignal: symbol stripping in the EA and the omission of stops that are not positive are not modelled; signals carry the position's own values.
- Signals whose POST fails: the monitor records them as sent, so the mirror misses them until the next report; every signal is delivered here.
- MonitorRuns.FoldRebuildsKnown: a scan is one step; deaths inside a scan are the subject of MonitorCuts, which assumes that ticket numbers are not reused.
- Ingest.Handler.Receive: runs undisturbed; what other requests do between its commands is the subject of the steps.
- RateLimit.Limiter.Authenticate: runs undisturbed, for the same reason.
- Backoff.Delay: does not model float64 rounding or products of 2^63 nanoseconds and more, where Go's conversion is implementation-defined.
- SymbolName.NormalizeIdempotentIff: upper-cases ASCII letters only; the proofs use no more than that upper-casing is idempotent and neither makes nor removes white space or dots.
- MachineCache.VerdictAtMostFiveMinutesOld: each check is one atomic step; the interleaving of table statements is the subject of Machines.
- Scopes.ScopesRoundTripIff: is about the two texts alone; ScopeColumn puts the database between them.
- ScopeColumn.ScopesKeptIff: an array of arrays counts as a text that is not a list, whatever Postgres makes of it, and the server setting array_nulls is on.
- Keys.CachedAcceptance: the cache read of a validation that misses is merged into its table read, whose verdict it does not influence; a cache TTL below zero is not modelled.
- Consumer.Consumer.ProcessJob: runs undisturbed; what other workers do between its commands is the subject of the transition system.
- Consumer.Consumer.ConsumeOnce: runs undisturbed, for the same reason.
- Consumer.Consumer.ReQueueStale: runs undisturbed and reads the clock once; QueueModel has a clock reading per text and any interleaving.
