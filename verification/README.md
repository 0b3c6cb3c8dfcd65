# Verified model of the lite-horse agent runtime's shared state

lite-horse serves language-model agents to many tenants at once. Its servers and workers share one Redis, one
Postgres and one object store, and nothing coordinates them beyond single commands and transactions. This project
states what lite-horse relies on in that setting - who holds a lock, whose decision reaches which tool call, which
rows are archived before they are deleted, what a counter has counted - and proves it for every order of events. It
also proves that what the runtime writes down, from memory notes to encrypted blobs, is read back as it was meant.
`dafny verify dfyconfig.toml` checks everything.

- **Step machines.** The Redis session lock, the permission broker, the turn multiplexer, the audit shipper, the GDPR
  delete worker and the cron tick are state machines over single steps. A run is any list of steps: any number of
  clients, processes, tasks or workers, interleaved in any order, with expiry, lost replies, failures and crashes.
- **Pools and quotas.** The MCP pool is a class over an ordered cache; the cost budget and the rate limit are
  methods over a Redis server, and their promises are proved over interleaved runs of their steps.
- **Tiers and versions.** The three `list_effective` methods are loops over a dict, proved equal to a per-slug rule;
  the official version history is a class whose runs keep an invariant.
- **Encodings.** The memory document in its two stores, the chunker's windows, the SSE printer and parser and the local
  KMS wire format are proved against plain definitions, with their inverses.
- **Rankings and local stores.** Skill activation, the local session store and the refusal strikes.
- **Effects.** For each of these, what a step or an operation does to what one can see - a key that is free again, a
  decision in another process, the rows of a list, the entries read back - is said a second time in plain terms, with
  the constants written out and without the functions that compute it (`LockHandover`, `PermissionDelivery`,
  `PermissionRequests`, `PermissionEndings`, `McpPoolUse`, `TurnEvents`, `TurnReading`, `JsonReading`, `KmsRecords`,
  `MemoryEdits`, `AuditEffects`, `GdprEffects`, `CronMessages`, `EffectiveRows`, `OfficialContents`, `BudgetDecisions`,
  `RateDecisions`, `ChunkOrder`, `ActivationRanking`, `SessionContents`).

Where the source changes state, a method over a class or over loop variables is proved equal to a function of the old
state, and the promises are proved about that function over all inputs or all runs.

A Redis command, a database transaction or an upload happens at once, on a map. Clocks count whole milliseconds and are
never set back. Fernet, the cron calendar, the injection check, lower-casing, glob matching, the
tokeniser and MCP connects are parameters, with the assumption they need stated beside them (`Sound`, `Honest`,
`WellBehaved`).

## What the code does otherwise than its documentation says

- `chunker.py` announces chunks cut at whitespace; the windows are cut at fixed positions. `Chunker.PhraseSurvives` says
  what survives whole.
- `gdpr.py` announces an export of every table of the user; `cron_jobs`, `mcp_servers` and the cascaded tables are
  deleted without one (`GdprArchive.PurgedIsArchivedIff`).
- `gdpr.py` ends a delete by stamping the request complete. A worker that dies between purge and stamp leaves its
  request open for good (`GdprCompletion.DyingWorkerSticks`): an open request can still be completed exactly while a
  worker is busy on it or a delivery of it would start one (`GdprCompletion.CanCompleteIff`).
- `cost_budget.py` says a counter expires 48 hours after its first write; every write renews it. A budget of 1 has the
  threshold 0 and never alerts (`CostBudget.OneCrossing`).
- Official version numbers repeat after a rollback followed by an update, or a delete followed by a create; a repeated
  version can never be rolled back to (`OfficialVersions.RepeatedVersionIsUnreachable`).
- A memory note with a section sign is re-read as several notes, and then the two stores can part
  (`MemoryPartings.SectionSignParts`).
- `message_count` is wrong after messages are copied into a session that already has some (`Sessions.CopyIsExactIff`).

## Model

| member | source | states |
|---|---|---|
| SessionLock.MutualExclusion | src/lite_horse/storage/locks_redis.py:36-63 | After any run of any clients, expiries, lost replies and crashes, two live leases on one key are one lease, and its token is the one the server stores. |
| SessionLock.OnlyTheHolderReleases | src/lite_horse/storage/locks_redis.py:19-24 | A live lease ends at a step exactly when that step is its own release reaching the server or its own expiry, whatever anyone else does. |
| SessionLock.LapsedReleaseIsNoOp | src/lite_horse/storage/locks_redis.py:19-24 | The release script of a client whose lease has lapsed leaves the whole key space unchanged, its successor's entry included. |
| SessionLock.RefusedIffHeld | src/lite_horse/storage/locks_redis.py:43-48 | A SET enters the body exactly when no client holds a live lease on the key. |
| SessionLock.TimedOutNeverHeld | src/lite_horse/storage/locks_redis.py:49-50 | A call that raised the timeout never had its token stored; one in its body was granted a lease. |
| SessionLock.Poll | src/lite_horse/storage/locks_redis.py:43-48 | One turn of the loop, with anything the others do around its SET, is a run of the machine that ends in the body or polls again at least one delay later. |
| SessionLock.Acquire | src/lite_horse/storage/locks_redis.py:37-50 | The whole loop is a run of the machine, terminates, and ends in the body exactly when it acquired, otherwise timed out no earlier than the deadline. |
| LockHandover.ReleaseFreesTheKey | src/lite_horse/storage/locks_redis.py:19-24 | After any run a holder whose release script reaches the server, reply or not, holds nothing, its key reads as absent, and no other entry or client has changed. |
| LockHandover.NextClientEnters | src/lite_horse/storage/locks_redis.py:43-63 | A client that sends its SET on that key next enters its body with a live lease. |
| LockHandover.LeavingFreesTheKey | src/lite_horse/storage/locks_redis.py:51-63 | A body that ends within its lease and releases leaves its key free. |
| LockHandover.CrashLeavesTheLease | src/lite_horse/storage/locks_redis.py:54 | A process that dies leaves the stored entry, and its lease, to expire. |
| LockHandover.GrantLastsItsTime | src/lite_horse/storage/locks_redis.py:43-48 | A SET on a free key stores the token for its whole time to live; even if the reply is lost, the next client enters exactly when that has passed. |
| LockHandover.CallStarts | src/lite_horse/storage/locks_redis.py:37-42 | A new call polls at once, with a deadline its wait from now and a time to live of at least a millisecond. |
| LockHandover.RefusedPollsAgain | src/lite_horse/storage/locks_redis.py:43-48 | A call refused because the lock is held has changed nothing, and can poll again once 50 milliseconds have passed, not before. |
| LockHandover.TimedOutIsLate | src/lite_horse/storage/locks_redis.py:49-50 | In any run, whoever timed out did so at its deadline or later. |
| PermissionInvariant.ApplyKeepsInv | src/lite_horse/web/permissions.py:89-184 | Every step keeps: decisions in futures and channels come from a `resolve`, a request is registered exactly while its owner waits, an undecided one is known to its broker, and answers equal decisions. |
| PermissionRuns.DecisionsAreSanctioned | src/lite_horse/web/permissions.py:122-184 | Over any brokers, callers, cancellations and broadcast orders, a decided future holds "allow" or "deny" and some `resolve` gave it for that turn and tool call. |
| PermissionRuns.NeverChanges | src/lite_horse/web/permissions.py:140-159 | Whatever runs later, a settled future and a caller's answer stay as they are. |
| PermissionRuns.SharersAgree | src/lite_horse/web/permissions.py:99-113 | Every caller with an answer got its request's decision, so all callers sharing a request agree. |
| PermissionRuns.TargetIsThePending | src/lite_horse/web/permissions.py:140-148 | A broker's lookup finds exactly the undecided request of that turn and tool call, and there is at most one. |
| PermissionRuns.ResolveDeliversToThePending | src/lite_horse/web/permissions.py:122-150 | A valid `resolve` reports delivery exactly when this broker has an undecided request for the turn and tool call, and decides it. |
| PermissionRuns.CancelUnblocksTheTurn | src/lite_horse/web/permissions.py:152-159 | After `cancel_turn` no request of that turn is undecided in this broker. |
| PermissionRuns.RegisteredWhileAwaited | src/lite_horse/web/permissions.py:108-113 | A tool call stays registered exactly while the caller that filed it has not returned. |
| PermissionDelivery.UndeliveredIsBroadcast | src/lite_horse/web/permissions.py:122-138 | After any run, a valid `resolve` that finds no undecided request adds exactly its message to the channel of every subscribed broker and nothing to any other, if its broker has Redis; otherwise nothing changes. |
| PermissionDelivery.OtherDecisionsAreRefused | src/lite_horse/web/permissions.py:126-127 | Anything but "allow" and "deny" is refused and changes nothing. |
| PermissionDelivery.DeliveredIsNotBroadcast | src/lite_horse/web/permissions.py:122-150 | One that finds the request decides it, and it alone, and sends nothing. |
| PermissionDelivery.MessageDecides | src/lite_horse/web/permissions.py:163-184 | A message that is read leaves the channel and decides the undecided request it names in that broker, if there is one, and no other. |
| PermissionDelivery.DecisionCrossesProcesses | src/lite_horse/web/permissions.py:122-184 | A decision given to one process decides the request waiting in another, subscribed one once it reads the message just sent. |
| PermissionRequests.RegisteredIsJoined | src/lite_horse/web/permissions.py:98-100 | A caller for a registered tool call awaits the request already there; nothing is filed or queued. |
| PermissionRequests.OtherwiseOneIsFiled | src/lite_horse/web/permissions.py:98-113 | Otherwise exactly one new undecided request is filed, registered, queued last and awaited. |
| PermissionRequests.HandedOutInOrder | src/lite_horse/web/permissions.py:115-118 | A turn's stream gets the earliest filed request in its queue, and never the same one again, whatever follows. |
| PermissionEndings.ReturnGivesTheDecision | src/lite_horse/web/permissions.py:99-113 | A waiting caller stays until its request is settled and then returns the decision, or raises if it was cancelled. |
| PermissionEndings.CancelledCaller | src/lite_horse/web/permissions.py:99-113 | A cancelled caller cancels the undecided request it shares; if that is settled, it alone raises. |
| PermissionEndings.CancelTurnIsExact | src/lite_horse/web/permissions.py:152-159 | `cancel_turn` fails exactly the undecided requests registered for that turn in that broker, and only that broker forgets the turn. |
| Permissions.Processes.RequestDecision | src/lite_horse/web/permissions.py:98-111 | Joins the registered request or files, queues and awaits a new one: exactly the machine's step. |
| Permissions.Processes.PendingEvents | src/lite_horse/web/permissions.py:115-118 | Takes the oldest queued request of the turn, or none: exactly the machine's step. |
| Permissions.Processes.ResolveLocally | src/lite_horse/web/permissions.py:140-150 | Decides the undecided request it finds, or refuses and changes nothing. |
| Permissions.Processes.ResolveDecision | src/lite_horse/web/permissions.py:122-138 | Delivers locally, otherwise broadcasts to every subscribed broker; an invalid decision changes nothing. |
| Permissions.Processes.Receive | src/lite_horse/web/permissions.py:176-182 | One subscriber turn consumes one message and decides what it names, without looking at the decision. |
| Permissions.Processes.FailAll | src/lite_horse/web/permissions.py:157-159 | The loop fails every undecided request among those filed and no other, in any order. |
| Permissions.Processes.CancelPending | src/lite_horse/web/permissions.py:152-159 | Forgets the turn and fails its undecided requests: exactly the machine's step. |
| Permissions.Processes.Answered | src/lite_horse/web/permissions.py:110-113 | The end of an await with its `finally`: exactly the machine's step. |
| McpPool.Pool.Find | src/lite_horse/agent/mcp_pool.py:119-138 | The position of the key in the cache, or its length. |
| McpPool.Pool.EvictIfFull | src/lite_horse/agent/mcp_pool.py:140-143 | The loop drops the oldest entries down to the bound and cleans each of them up. |
| McpPool.Pool.GetOrBuild | src/lite_horse/agent/mcp_pool.py:119-138 | A fresh hit moves to the end; a stale one is cleaned up before connecting; a failed connect caches nothing. |
| McpPool.Pool.AcquireAll | src/lite_horse/agent/mcp_pool.py:104-117 | The loop over the entries equals the recursive acquire, with none when one fails to connect. |
| McpPool.Pool.Drop | src/lite_horse/agent/mcp_pool.py:145-163 | Splits the cache into kept and dropped entries and cleans the dropped ones up. |
| McpPool.Pool.Close | src/lite_horse/agent/mcp_pool.py:165-171 | Empties the cache and cleans up every entry. |
| McpPool.RunConserves | src/lite_horse/agent/mcp_pool.py:104-171 | After any calls the cache is within its maximum, its keys are distinct, and every server ever built is cached once or has been cleaned up exactly once. |
| McpPool.ShutdownCleansAll | src/lite_horse/agent/mcp_pool.py:165-171 | After a shutdown every server ever built has been cleaned up exactly once. |
| McpPool.AcquireServes | src/lite_horse/agent/mcp_pool.py:119-138 | Each server returned was built for the key asked for and had not expired when fetched. |
| McpPool.AcquireReturnsLiveIffFits | src/lite_horse/agent/mcp_pool.py:104-143 | An acquire of distinct connecting keys returns only servers not yet cleaned up exactly when they are at most the maximum. |
| McpPool.InvalidateIsExact | src/lite_horse/agent/mcp_pool.py:145-163 | Exactly the matching entries leave, and each of them is cleaned up. |
| McpPoolUse.FreshIsServed | src/lite_horse/agent/mcp_pool.py:125-128 | After any calls, an entry whose key is cached and not expired gets the cached server; nothing is built or cleaned up, and its slot moves to the end of an otherwise unchanged order. |
| McpPoolUse.MissBuildsOne | src/lite_horse/agent/mcp_pool.py:129-143 | Any other entry that connects builds exactly one server and gets it; the cache is the newest of what was there, without the stale slot, and of the new one; all that left it is cleaned up once. |
| McpPoolUse.FailureBuildsNothing | src/lite_horse/agent/mcp_pool.py:129-133 | An entry that fails to connect builds nothing; only its stale slot leaves, and is cleaned up. |
| McpPoolUse.AcquireInTurn | src/lite_horse/agent/mcp_pool.py:113-117 | The entries are served one after the other, and none after one that fails. |
| McpPoolUse.InvalidateSpares | src/lite_horse/agent/mcp_pool.py:153-163 | What stays are the entries of other users and other servers, in order; what leaves is cleaned up, each server once. |
| Turns.StreamTurn | src/lite_horse/web/turns.py:180-263 | The reading loop renders the items up to the first stopping one, then a done event with the last final text; the handle keeps the last usage. |
| Turns.ReaderSawEverything | src/lite_horse/web/turns.py:149-263 | A closed stream's reader has taken all the runner's events, and stopped on the runner's verdict or its end marker. |
| Turns.CompletedStream | src/lite_horse/web/turns.py:134-263 | In every interleaving a completed stream is a merge of all runner events and a prefix of the permission requests, each in order, then the error of a failed runner, then done. |
| Turns.ErrorAndDoneAtTheEnd | src/lite_horse/web/turns.py:180-263 | Exactly one done, placed last; an error exactly when the runner did not finish, just before it. |
| TurnEvents.CompletedTurnShows | src/lite_horse/web/turns.py:266-298 | The deltas, tool calls, tool outputs and usage totals of a completed turn are the runner's events one for one, in order and field by field, without empty deltas and unknown events; the requests are the first ones asked, in order. |
| TurnEvents.CompletedTurnEnds | src/lite_horse/web/turns.py:226-263 | The done text is the final output of the last `StreamDone` yielded, or empty; the error before it says how the runner failed. |
| TurnEvents.LoopShows | src/lite_horse/web/turns.py:217-263 | The same of the reading loop for any items it takes, and the usage it leaves on the handle. |
| TurnEvents.SoFarShown | src/lite_horse/web/turns.py:149-263 | At any time every event yielded and every request asked was taken and shown, is queued, or waits to be forwarded, in that order; none is lost. |
| Sse.ParseSse | src/lite_horse/web/turns.py:322-338 | The line loop equals the recursive parse. |
| Sse.ParseEncoded | src/lite_horse/web/sse.py:31-34 | Parsing the concatenation of any encoded records with one-line names gives exactly those records, in order, less those with a blank name. |
| Sse.RecordSurvivesIff | src/lite_horse/web/turns.py:322-338 | A record is read back as printed exactly when its one-line name is non-empty and trimmed. |
| Sse.BlockReads | src/lite_horse/web/turns.py:322-338 | Any non-blank lines before a blank one are one record: the name of the last event line and the data lines joined; without a name they are none. |
| Sse.ParseDistributes | src/lite_horse/web/turns.py:322-338 | Any text ending in a blank line parses independently of what follows it. |
| TurnWire.CollectReadsTheStream | src/lite_horse/web/turns.py:306-319 | `collect_sse` reads one record per streamed event, with its name and payload, in order. |
| TurnWire.CollectedTurn | src/lite_horse/web/turns.py:306-319 | Of a completed turn it reads exactly one "done", as the last record, and an "error" only just before it. |
| TurnReading.StreamReadsBack | src/lite_horse/web/sse.py:31-82 | Printing any events, parsing the text and decoding the payloads gives those events back, whatever their strings, numbers and arguments hold. |
| TurnReading.CollectedAnswer | src/lite_horse/web/routes/turns.py:412-422 | For the non-streaming route: only the last record of a completed turn is "done", and its payload holds the turn's id and the final output of the last `StreamDone`. |
| Json.DumpsPrintable | src/lite_horse/web/sse.py:31-34 | A dumped value is printable ASCII whatever strings it holds: no newline splits a record and no NUL ends a context (string escaping as in section 7 of RFC 8259). |
| JsonReading.LoadsDumps | src/lite_horse/web/sse.py:31-34 | A reader after RFC 8259, sections 3 to 7, gives back every value that was dumped, with any characters, nesting and finite numbers. |
| JsonReading.ObjectInjective | src/lite_horse/storage/kms_local.py:24-25 | So the text of an object of strings determines its items. |
| LocalKms.SerializeInjective | src/lite_horse/storage/kms_local.py:24-25 | Two contexts serialise alike exactly when they are equal as dicts. |
| LocalKms.AcceptsExactly | src/lite_horse/storage/kms_local.py:43-62 | Decryption returns a plaintext exactly for a ciphertext with this context as length-prefixed header and a token that holds the context, a NUL and that plaintext. |
| LocalKms.RoundTrip | src/lite_horse/storage/kms_local.py:34-62 | A context with a user id that fits the length field encrypts; decrypting returns the plaintext, NULs included, under an equal context, and rejects every other one. |
| LocalKms.SwappedHeaderRejected | src/lite_horse/storage/kms_local.py:43-62 | A token moved behind another context's header is accepted under no context. |
| KmsRecords.EncryptedIs | src/lite_horse/storage/kms_local.py:34-41 | Without a user id encryption refuses; otherwise the record is the length in four bytes, the most significant first, the context as compact JSON in dictionary order of its keys, and a token for context, NUL and plaintext. |
| KmsRecords.DecryptedIs | src/lite_horse/storage/kms_local.py:43-62 | Which of the five errors decryption raises, or the plaintext it returns, for every ciphertext, a truncated one included. |
| MemoryText.ParsersAgree | src/lite_horse/agent/backends/memory_cloud.py:37-40 | The file store's and the cloud's way of reading entries agree on every text. |
| MemoryText.ParseJoined | src/lite_horse/agent/backends/memory_cloud.py:43-44 | Joining section-free entries and reading them back gives the same entries, stripped, less the blank ones. |
| MemoryText.JoinedUnsafe | src/lite_horse/repositories/memory_repo.py:69-94 | A joined body fails the injection check exactly when one of its entries does, so the whole-body check finds nothing the per-entry checks let through. |
| Memory.MemoryStore.Add | src/lite_horse/memory/store.py:67-76 | The file after an add, and its outcome, as one function of the file before. |
| Memory.MemoryStore.Replace | src/lite_horse/memory/store.py:78-93 | As above for replace: one match required, the limit on the new total. |
| Memory.MemoryStore.Remove | src/lite_horse/memory/store.py:95-105 | As above for remove. |
| Memory.MemoryRepo.Put | src/lite_horse/repositories/memory_repo.py:69-94 | Length and content checks, then a write that makes version 1 or adds 1. |
| Memory.MemoryCloudBackend.Add | src/lite_horse/agent/backends/memory_cloud.py:77-97 | The document after an add, and its outcome, as one function of the document before. |
| Memory.MemoryCloudBackend.Replace | src/lite_horse/agent/backends/memory_cloud.py:99-121 | As above for replace. |
| Memory.MemoryCloudBackend.Remove | src/lite_horse/agent/backends/memory_cloud.py:123-136 | As above for remove. |
| MemoryEdits.FileEdits | src/lite_horse/memory/store.py:67-134 | From the entries read before and after: blank, then unsafe content is refused; no match and several matches are told apart exactly; one match is replaced or dropped, an add goes last unless it is there; over the limit and on every refusal the file is as it was. |
| MemoryEdits.DocumentEdits | src/lite_horse/agent/backends/memory_cloud.py:77-148 | The same answers and edits for the cloud document, but for a removal that outgrows the repository; each write adds one to the version. |
| MemoryEdits.PlainContentReadsAsItself | src/lite_horse/agent/backends/memory_cloud.py:37-44 | Content without a section sign is read back as one entry, stripped. |
| MemoryEdits.FileEndsInNewline | src/lite_horse/memory/store.py:132-134 | A rewritten file is empty or ends in a newline. |
| MemoryEdits.RepositoryWrites | src/lite_horse/repositories/memory_repo.py:69-94 | The repository refuses a body over its limit, then an unsafe one, unchanged; any other replaces the document under the next version. |
| MemoryAgreement.StepsAgree | src/lite_horse/agent/backends/memory_cloud.py:77-148 | From equal entries any operation with any content has the same outcome in both stores and leaves equal entries, exactly unless it is a removal whose rewritten body outgrows the repository. |
| MemoryAgreement.AgreedStep | src/lite_horse/memory/store.py:67-134 | Along section-free operations both stores also hold the plain list's entries, and the repository's own checks never fire. |
| MemoryAgreement.RunsAgree | src/lite_horse/memory/store.py:56-134 | From nothing, after any section-free operations, both stores gave the same outcomes, hold the plain list's entries and keep within the limit. |
| MemoryPartings.SectionSignParts | src/lite_horse/memory/store.py:56-60 | A family of notes with section signs after which the same removal is accepted by one store and refused by the other. |
| AuditShip.NoRowIsLost | src/lite_horse/worker/audit_ship.py:89-142 | Under crashes, redelivery and overlapping shippers every row ever inserted is in the table or in an uploaded object. |
| AuditShip.ObjectsAreKept | src/lite_horse/worker/audit_ship.py:122-130 | An uploaded object is never changed or removed. |
| AuditShip.OnlyArchivedExpiredRowsLeave | src/lite_horse/worker/audit_ship.py:132-134 | A row leaves the table only by a delete of a shipper whose uploaded object holds it and whose cutoff it predates. |
| AuditShip.YoungRowsStay | src/lite_horse/worker/audit_ship.py:101-113 | With a retention of at least d days in every message, no row younger than d days is deleted. |
| AuditShip.SelectIsOldestBatch | src/lite_horse/worker/audit_ship.py:107-113 | The batch is the expired rows with the smallest ids: all of them, or as many as the limit. |
| AuditShip.RunAuditShip | src/lite_horse/worker/audit_ship.py:89-142 | Undisturbed, the batch moves as one new object from the table to the store; a failed upload leaves the table alone. |
| AuditShip.UndisturbedRun | src/lite_horse/worker/audit_ship.py:89-142 | The machine's steps with nothing in between have exactly that effect. |
| AuditEffects.ShipMovesTheOldest | src/lite_horse/worker/audit_ship.py:89-142 | After any run an undisturbed shipper moves the oldest rows past the retention, up to the limit, into one new object named after its cutoff, its draw and its first and last row, and no others. |
| AuditEffects.FailedUploadDeletesNothing | src/lite_horse/worker/audit_ship.py:122-134 | A failed upload may leave its object but ends the shipper with every row in the table. |
| GdprArchive.PurgedIsArchivedIff | src/lite_horse/worker/gdpr.py:119-194 | If deliveries of one request do not overlap and nothing is written between export and purge, a deleted row is in the archive of the worker that deleted it exactly when its table is one the export reads. |
| GdprArchive.LateWriteIsLost | src/lite_horse/worker/gdpr.py:148-177 | The run from the start in which a row is written after the upload: it is deleted and in no archive of the worker that deletes it. |
| GdprArchive.OverlapEmptiesTheArchive | src/lite_horse/worker/gdpr.py:148-177 | The run from the start in which a second worker exports after the first has purged: its upload replaces the archive by an empty one, and the user's row is in none. |
| Gdpr.CompletedMeansPurged | src/lite_horse/worker/gdpr.py:169-186 | In any run a completed request's user and rows are gone. |
| GdprCompletion.CanCompleteIff | src/lite_horse/worker/gdpr.py:119-194 | After any run an open request can still be completed exactly when a worker is busy on it, or it is neither cancelled nor cut off from its user, so that a new delivery would start one. |
| GdprCompletion.StuckForGood | src/lite_horse/worker/gdpr.py:133-144 | Otherwise it stays open, whatever is redelivered and whatever else happens. |
| GdprCompletion.DyingWorkerSticks | src/lite_horse/worker/gdpr.py:169-186 | The run from the start whose worker dies between purge and completion ends with the request open and beyond completion. |
| Gdpr.RunGdprDelete | src/lite_horse/worker/gdpr.py:119-194 | Which outcomes are reported as success, and exactly what each failure leaves done. |
| Gdpr.UndisturbedDelivery | src/lite_horse/worker/gdpr.py:119-194 | The machine's steps with nothing in between archive, delete and complete exactly as that method does. |
| GdprEffects.DeliveryArchivesAndDeletes | src/lite_horse/worker/gdpr.py:119-194 | An undisturbed delivery of an open request archives exactly the user's rows of the exported tables, deletes the user with all rows, cuts the requests off and closes this one; other users keep everything. |
| GdprEffects.ClosedStartsNothing | src/lite_horse/worker/gdpr.py:128-144 | A delivery of a request that is unknown, closed, cancelled or cut off from its user changes nothing. |
| GdprEffects.FailedUploadDeletesNothing | src/lite_horse/worker/gdpr.py:148-168 | A failed upload ends the worker with nothing deleted. |
| CronTick.Tick | src/lite_horse/scheduler/tick.py:31-102 | The nested loops enqueue the batch of the due jobs in order, count it, and stamp exactly the fired rows. |
| CronTick.CronTable.MarkFired | src/lite_horse/repositories/cron_repo.py:250-265 | Stamps the row with this id and no other. |
| CronTick.TickIsPerJob | src/lite_horse/scheduler/tick.py:40-102 | With distinct ids a tick changes each job by its own rule alone. |
| CronTick.TickCount | src/lite_horse/scheduler/tick.py:40-102 | The return value is one per fired user job plus the active-user count per fired official job. |
| CronTick.FiresIffBoundaryPassed | src/lite_horse/cron/scheduler.py:319-331 | A job that fired before fires exactly when it can and a boundary passed since. |
| CronTick.NothingDueIsMissed | src/lite_horse/scheduler/tick.py:31-102 | After a committed tick no boundary lies between a job's stamp and the tick. |
| CronTick.BoundaryBetweenFires | src/lite_horse/cron/scheduler.py:319-331 | Over committed, failed and edited runs, two successive fires at m and m' have a boundary in (m, m']. |
| CronTick.FiresNeverOutnumberBoundaries | src/lite_horse/repositories/cron_repo.py:250-265 | The fires after a job's first known one never outnumber the boundaries elapsed. |
| CronTick.SameMomentFiresOnce | src/lite_horse/scheduler/tick.py:31-102 | A second tick at the same moment fires nothing again. |
| CronMessages.TickSends | src/lite_horse/scheduler/tick.py:40-102 | A tick sends, for each job that is enabled, due and has a receiver, one message to its user or one to each active user, with the job's own fields and this moment, and nothing for any other. |
| CronMessages.TickStamps | src/lite_horse/repositories/cron_repo.py:250-265 | A job that sends is stamped with the moment and loses its strikes; nothing else in the table changes. |
| CronMessages.RowsInOrder | src/lite_horse/repositories/cron_repo.py:235-248 | Official jobs are visited before user jobs, and jobs of one scope in dictionary order of their slugs. |
| RefusalStrikes.Fire.Finish | src/lite_horse/cron/scheduler.py:122-146 | One firing's effect on the strikes and on the store. |
| RefusalStrikes.JobStore.DisableWithReason | src/lite_horse/cron/jobs.py:106-115 | Disables and stamps the job if it is still there, and changes no other. |
| RefusalStrikes.StrikesAreTrailingRefusals | src/lite_horse/cron/scheduler.py:132-146 | Whatever other jobs do, strikes are the latest refusals in a row modulo three, and a job is disabled once for each third one. |
| RefusalStrikes.NoStoreNeverDisables | src/lite_horse/cron/scheduler.py:135-139 | Without a store nothing is disabled and the strikes are all the latest refusals. |
| Layered.ListEffectiveSkills | src/lite_horse/repositories/skill_repo.py:353-408 | The three passes over the dict, then the sort, equal the merge function. |
| Layered.SkillsFollowTheRule | src/lite_horse/repositories/skill_repo.py:353-408 | The result is the list of the rule (mandatory official, else user, else official not opted out, else bundled): every slug once, sorted. |
| Layered.ListEffectiveInstructions | src/lite_horse/repositories/instruction_repo.py:267-311 | As above for instructions. |
| Layered.InstructionsFollowTheRule | src/lite_horse/repositories/instruction_repo.py:267-311 | The same rule, sorted by priority then slug. |
| Layered.ListEffectiveMcp | src/lite_horse/repositories/mcp_repo.py:340-388 | As above for MCP servers, two passes over enabled rows. |
| Layered.McpFollowsTheRule | src/lite_horse/repositories/mcp_repo.py:340-388 | The rule over enabled rows; a disabled mandatory official row yields nothing. |
| EffectiveRows.EffectiveSkills | src/lite_horse/repositories/skill_repo.py:353-408 | The list holds exactly the rows of the precedence rule, said with quantifiers over the three tiers and field by field, in dictionary order of slugs. |
| EffectiveRows.EffectiveInstructions | src/lite_horse/repositories/instruction_repo.py:267-311 | The same for instructions, by ascending priority and, where that ties, in dictionary order. |
| EffectiveRows.EffectiveServers | src/lite_horse/repositories/mcp_repo.py:340-388 | The same for the enabled MCP rows of two tiers. |
| OfficialVersions.SkillRepo.CreateOfficial | src/lite_horse/repositories/skill_repo.py:152-177 | Version 1 becomes current, or the unique index refuses it. |
| OfficialVersions.SkillRepo.UpdateOfficial | src/lite_horse/repositories/skill_repo.py:179-217 | The current row retires and its successor, one version up, becomes current. |
| OfficialVersions.SkillRepo.DeleteOfficial | src/lite_horse/repositories/skill_repo.py:219-228 | The slug's rows all retire. |
| OfficialVersions.SkillRepo.RollbackOfficial | src/lite_horse/repositories/skill_repo.py:238-268 | The one row with that version becomes current; none or several is an error. |
| OfficialVersions.RunInv | src/lite_horse/repositories/skill_repo.py:152-268 | Over every history at most one row per slug is current, and version numbers start at 1 without gaps. |
| OfficialVersions.NoRowIsLost | src/lite_horse/repositories/skill_repo.py:152-268 | No official row is lost or has its content changed. |
| OfficialVersions.CurrentAfter | src/lite_horse/repositories/skill_repo.py:152-268 | Delete leaves no row current; create and update exactly the new row; rollback exactly the chosen one. |
| OfficialVersions.UpdateStaysUniqueIff | src/lite_horse/repositories/skill_repo.py:179-217 | From unique versions an update keeps them unique exactly when the current row is the latest. |
| OfficialVersions.CreateStaysUniqueIff | src/lite_horse/repositories/skill_repo.py:152-177 | A create keeps them unique exactly when the slug has no version 1 yet. |
| OfficialVersions.RepeatedVersionIsUnreachable | src/lite_horse/repositories/skill_repo.py:238-268 | A version that repeats once can never be rolled back to again. |
| OfficialVersions.RollbackThenUpdateBlocksAVersion | src/lite_horse/repositories/skill_repo.py:179-268 | Rolling back below an existing version and updating makes that version unreachable for good. |
| OfficialContents.CreateAdds | src/lite_horse/repositories/skill_repo.py:152-177 | After any history a create is refused exactly while the slug has a current row, and otherwise adds one current row of version 1 with this content; no other row changes but in being current. |
| OfficialContents.UpdatePatches | src/lite_horse/repositories/skill_repo.py:179-217 | An update is refused exactly without a current row; the new row has its version plus one, and each field is the patch's where it is given and the old row's where it is not. |
| OfficialContents.DeleteRetires | src/lite_horse/repositories/skill_repo.py:219-228 | A delete ends being current and nothing else, and is refused exactly without a current row. |
| OfficialContents.RollbackPromotes | src/lite_horse/repositories/skill_repo.py:238-268 | A rollback is refused exactly when no row or several have that version; otherwise that row alone is current. |
| OfficialContents.OncePerUserSlug | src/lite_horse/repositories/skill_repo.py:75-150 | A user creates a slug once, and again after deleting it. |
| CostBudget.GetSpentMicro | src/lite_horse/web/cost_budget.py:48-64 | Today's counter, zero on a miss or without Redis. |
| CostBudget.CheckBudget | src/lite_horse/web/cost_budget.py:67-85 | Refuses exactly when a positive budget has been reached. |
| CostBudget.RecordCost | src/lite_horse/web/cost_budget.py:88-128 | The pipelined increment, then the alert key and metric exactly when the increment crossed the threshold. |
| CostBudget.CounterIsTheSum | src/lite_horse/web/cost_budget.py:103-112 | Over any interleaving the counter of today is the sum of today's positive costs; no expiry loses it. |
| CostBudget.OverspendIsBounded | src/lite_horse/web/cost_budget.py:67-112 | With at most k turns in flight of cost at most c, no day's recorded spend reaches budget + k * c. |
| CostBudget.OneCrossing | src/lite_horse/web/cost_budget.py:103-128 | Under one budget exactly one recording crosses 80% once the day's total reaches it and none before; a budget of 1 never alerts. |
| CostBudget.AlertAtMostOnce | src/lite_horse/web/cost_budget.py:113-128 | Whatever the budgets, a day's alert is emitted at most once until the end of the next day. |
| BudgetDecisions.AdmittedIffBelow | src/lite_horse/web/cost_budget.py:67-85 | After any run a turn is admitted exactly without a positive budget or while the costs recorded today are below it. |
| BudgetDecisions.RecordingAdds | src/lite_horse/web/cost_budget.py:88-112 | A recording adds the positive cost of an admitted turn to its tenant's day and to no other. |
| BudgetDecisions.CrossingAtFourFifths | src/lite_horse/web/cost_budget.py:113-128 | Under one budget of at least 2 the day's one crossing is at 80 percent of it, rounded down. |
| BudgetDecisions.CrossingIsEmitted | src/lite_horse/web/cost_budget.py:113-128 | The crossing's alert is emitted if its process lives to send it. |
| RateLimit.CheckAndConsume | src/lite_horse/web/rate_limit.py:34-64 | Default, unlimited and Redis-less cases, and the counted answer. |
| RateLimit.BucketAdmitsUpToCap | src/lite_horse/web/rate_limit.py:34-64 | With a fixed positive cap and calls that reach Redis within a window of reading the clock, a bucket admits exactly min(calls, cap); the renewed expiry drops no bucket still called. |
| RateLimit.LateCallsRestartTheCount | src/lite_horse/web/rate_limit.py:60-64 | For every positive cap there is a run with one millisecond more of lag in which a bucket admits twice its cap. |
| RateLimit.AnyMinuteAdmitsTwiceTheCap | src/lite_horse/web/rate_limit.py:27-31 | Any half-open 60-second interval admits at most twice the cap. |
| RateLimit.TwiceTheCapIsReached | src/lite_horse/web/rate_limit.py:27-31 | For every cap there is a run that admits exactly twice the cap within 60 seconds. |
| RateDecisions.AdmittedIffFewer | src/lite_horse/web/rate_limit.py:34-64 | After any run of calls under any limits, a call is admitted exactly when fewer limited calls of its tenant than its own limit, 60 by default, read the same minute; without a limit it is admitted and not counted. |
| RateDecisions.OthersAreUntouched | src/lite_horse/web/rate_limit.py:27-31 | A call touches the counter of its own tenant and minute and no other. |
| Redis.IncrExpirePipeline | src/lite_horse/web/rate_limit.py:60-63 | INCR then EXPIRE as one transaction: the new count, and an expiry renewed by every call. |
| Tenants.KeysAreInjective | src/lite_horse/web/rate_limit.py:27-31 | Users without a colon never share a counter key, whatever their agents are called. |
| Tenants.SharedKeyIff | src/lite_horse/web/cost_budget.py:36-45 | Two counters share a key exactly when their windows agree and their tenants are equal, or one user name continues the other with a colon and a rest that, with its own agent, reads as the other's agent. |
| Chunker.ChunkWithChars | src/lite_horse/providers/chunker.py:44-57 | The loop terminates and emits the stripped, non-empty windows in order. |
| Chunker.ChunkWithTokens | src/lite_horse/providers/chunker.py:26-41 | The same over tokens, for any decoder. |
| Chunker.ChunkText | src/lite_horse/providers/chunker.py:60-71 | Blank text has no chunks; the characters are used exactly when the tokeniser fails. |
| Chunker.WindowIs | src/lite_horse/providers/chunker.py:44-57 | Window i starts at i steps, is full unless it is the last, and the last one is the first to reach the end. |
| Chunker.NeighboursOverlap | src/lite_horse/providers/chunker.py:44-57 | Consecutive windows share exactly the overlap. |
| Chunker.WindowsRebuild | src/lite_horse/providers/chunker.py:44-57 | Dropping each overlap rebuilds the text. |
| Chunker.AlwaysFitsIff | src/lite_horse/providers/chunker.py:44-57 | Every stretch of n elements lies in one window exactly when n is at most overlap + 1 or one window is all. |
| Chunker.ChunksAreSlices | src/lite_horse/providers/chunker.py:44-57 | Every chunk is a non-empty, trimmed slice of the text of at most 1024 characters. |
| Chunker.PhraseSurvives | src/lite_horse/providers/chunker.py:44-57 | A phrase of at most 129 characters without blanks at its ends is whole in one chunk, so every non-whitespace character survives. |
| Chunker.NoChunksIffBlank | src/lite_horse/providers/chunker.py:44-57 | There are no chunks exactly when the text is blank. |
| ChunkOrder.CharChunksInOrder | src/lite_horse/providers/chunker.py:44-57 | The chunks are the stretches of 1024 characters, one every 896, stripped and in order, less the blank ones. |
| ChunkOrder.TokenChunksInOrder | src/lite_horse/providers/chunker.py:26-41 | Of the tokens, the stretches of 256, one every 224, decoded, stripped and in order. |
| Activation.ScoreEntry | src/lite_horse/skills/activation.py:162-181 | The nested loops sum the rules' keyword and glob scores; a skill without rules scores one half. |
| Activation.StaysIff | src/lite_horse/skills/activation.py:162-181 | A skill stays in the ranking exactly when it has no rules or one of them triggers. |
| Activation.FilterResolvedForTurn | src/lite_horse/skills/activation.py:252-281 | Without a user text all skills by slug; otherwise the head of the ranking of the scoring ones. |
| Activation.TopKIsChosen | src/lite_horse/skills/activation.py:274-281 | Chosen and omitted make up the positive skills, nothing omitted ranks above anything chosen, and something is omitted only when k are chosen. |
| Activation.ChosenIff | src/lite_horse/skills/activation.py:274-281 | With distinct slugs a skill is chosen exactly when it scores and fewer than k skills rank above it. |
| Activation.OrderDoesNotMatter | src/lite_horse/skills/activation.py:280-281 | With distinct slugs the choice is the same for every input order. |
| ActivationRanking.ScoreCounts | src/lite_horse/skills/activation.py:162-181 | Without rules one half; else two for each keyword in the text and each glob that matches, and one for each keyword only in the profile. |
| ActivationRanking.ChosenInOrder | src/lite_horse/skills/activation.py:274-281 | The chosen skills score, are at most k, and stand by descending score and, where that ties, in dictionary order. |
| ActivationRanking.LeftOutComesAfter | src/lite_horse/skills/activation.py:280-281 | A scoring skill that is left out comes after all the chosen ones, and there are k of them. |
| ActivationRanking.ListedIsAPrefix | src/lite_horse/skills/activation.py:280-281 | For any number k the list is the beginning of the whole ranking; a negative k cuts that many off its end. |
| ActivationRanking.AllBySlug | src/lite_horse/skills/activation.py:265-269 | Without a user text all skills are listed, in dictionary order of their slugs. |
| Sessions.LocalSessionRepo.CreateSession | src/lite_horse/sessions/local.py:129-143 | A new session row counts zero; an existing one is left alone. |
| Sessions.LocalSessionRepo.AppendMessage | src/lite_horse/sessions/local.py:215-245 | Inserts the next id and adds one to the counter of an existing session row. |
| Sessions.LocalSessionRepo.PopLastMessage | src/lite_horse/sessions/local.py:265-280 | Deletes the latest message and lowers the counter, not below zero. |
| Sessions.LocalSessionRepo.ClearSession | src/lite_horse/sessions/local.py:282-290 | Deletes the session's messages and resets its counter. |
| Sessions.LocalSessionRepo.CopyMessages | src/lite_horse/sessions/local.py:292-320 | The loop inserts the source's messages in order and sets the counter to their number. |
| Sessions.LimitKeepsTheEnd | src/lite_horse/sessions/local.py:247-263 | The nested queries return the end of the ordered messages; a negative limit, or one too large, returns them all. |
| Sessions.PopTakesTheLast | src/lite_horse/sessions/local.py:265-280 | Popping returns the last message in order and leaves exactly the others. |
| Sessions.PopUndoesAppendIff | src/lite_horse/sessions/local.py:215-280 | Popping takes back the message just appended exactly when no message is dated after it. |
| Sessions.CopyIsExactIff | src/lite_horse/sessions/local.py:292-320 | A copy leaves the counter right exactly when nothing is copied or the target was empty. |
| Sessions.CounterIsExact | src/lite_horse/sessions/local.py:215-320 | Over runs that create first and copy only into empty sessions, every counter is the number of messages. |
| SessionContents.ReadInOrder | src/lite_horse/sessions/local.py:247-263 | A session is read as its own messages and no others, by time and then by number. |
| SessionContents.AppendAdds | src/lite_horse/sessions/local.py:215-245 | An append adds one message with the next number; other sessions and counters stay. |
| SessionContents.PopLeavesOthers | src/lite_horse/sessions/local.py:265-280 | A pop leaves other sessions and counters alone and takes one off a positive counter exactly when there is a message. |
| SessionContents.ClearEmpties | src/lite_horse/sessions/local.py:282-290 | Clearing leaves no message of this session and a zero counter; others stay. |
| SessionContents.CopyRepeats | src/lite_horse/sessions/local.py:292-320 | A copy appends the source's messages as they are read, with their times and bodies and new numbers. |

## Left out

- Permissions: futures, turn states and callers are numbers in sequences rather than heap objects; `stop` and a restarted subscriber are steps of the machine only.
- SessionLock: the bodies' own work and the lock's in-memory variant, whose expired holders release their successors' locks (locks_memory.py:53-57).
- McpPool: overlapping calls, in which two misses on one key lose an entry without cleanup (mcp_pool.py:133-137), and a negative maximum, with which eviction fails on an empty cache.
- Turns: the generator closed early by its consumer, and a runner cancelled before its first step.
- Memory: the read of a document while another operation writes it; the abstract injection check matches no text that begins or ends blank or holds a section sign.
- OfficialVersions: the same history in the instruction, MCP and command repositories.
- Layered: the command repository's merge, which repeats the skill rule.
- CronTick: when a job that never fired is due; the calendar itself belongs to APScheduler.
- CronTick.Tick: the database and the queue change together here; a crash between sending and stamping is the step `Died` of the machine.
- Gdpr: the tombstone written over the audit log's actors, which the audit shipper's machine has as its step `Anonymise`.
- GdprArchive.PurgedIsArchivedIff: assumes quiet runs, because outside them rows are lost, as the two lemmas beside it show.
- RateLimit.BucketAdmitsUpToCap: assumes a lag of at most one window, because beyond it a bucket restarts, as the lemma beside it shows.
- CostBudget and RateLimit: the caller's clock, apart from the rate limit's lag, is the server's clock.
- Tenants: the counters are keyed by datatypes, which is right for users without a colon.
- Sessions: full-text search, summaries and deletion of old sessions; timestamps are integers.
- LocalKms: Fernet is a pair of functions with a stated contract; the AWS KMS wrapper is not modelled.
- Chunker: the tokeniser's own encoding; what is said of characters is said of tokens before decoding.
- Activation: parsing of the frontmatter, lower-casing and glob matching.
- Postgres row-level security, vector and full-text search, HTTP routes, authentication, the model-driven side agents, settings and the deployment stack.
