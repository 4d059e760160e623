# Verified model of the SMS gateway core

A Dafny model of the queues, sweepers, limiters, parsers and printers at the
core of the gateway, with proofs about every run of them. `dafny verify
dfyconfig.toml` verifies the whole project.

Code that changes state is a class with the same fields and methods that update
them in place; its contracts tie the fields to a function of the calls made so
far (a ghost history) or of the old state. The theorems are lemmas about those
functions, over all histories.

| module | what it models |
|---|---|
| `GatewayRegistry`, `GatewayRegistryRuns`, `GatewayRegistryCalls`, `GatewayRegistryLimits` | the REST gateway registry: claim, report, retry, time-out and trimming of mobile-terminated messages |
| `Charging`, `DlrSweeper`, `DlrSweeperRuns`, `DlrSweeperReceipts`, `DlrSweeperProgress` | charging modes, one sweep of stale messages, any number of sweeps interleaved statement by statement, what the forced receipts say, and progress over consecutive sweeps |
| `DlrQueue`, `DlrQueueRuns`, `DlrQueueOrder`, `DlrPersist`, `DlrPersistMirror`, `DlrRecovery` | the bounded receipt queue per client, its database mirror, and the reload after a restart |
| `RateLimiter` | the per-IP sliding window |
| `AuthCache` | gateway credentials: tenant scan, cache, pruning, key rotation |
| `WrapText`, `PdfEscape`, `PdfFile` | invoice text layout, literal strings and the file structure of the PDF writers |
| `TokenBucket` | the pacer of the load generator, over exact reals |
| `AmiMessage`, `AmiClient` | printing, framing, parsing and routing of Asterisk manager messages |
| `SmppBind` | the raw bind PDU tool: printer, parser, reassembly |
| `Wrappers`, `Sequences`, `Strings`, `Splitting` | shared values and string operations |

Where the code and its comments differ, the model follows the code:

- `requeueDlrs` appends the re-queued receipts (`src/lib/dlr-queue.ts:64`); its comment at line 58 says it prepends them.
  - Appending keeps receipts in order exactly when the queue is empty and they are the newest claimed ones in order (`RequeueOrderIff`, `GivingBackKeepsOrderIff`); prepending would need only the latter (`PrependOrderIff`).
  - It may pass the cap of 1000. The stored rows of a client are then its whole queue exactly as long as nothing is enqueued to it over the cap (`MirrorsIff`, with the failing input in `OverCapBreaksMirror`), and always its newest part. A restart recovers the newest 1000 (`RecoversNewest`), the whole queue exactly when that is within the cap (`RecoversAllIff`).
- `MAX_QUEUE` is described as dropping the oldest message (`src/lib/gateway-rest-registry.ts:50`); enqueueing refuses instead. One call leaves the queue above it exactly when it reports a failure that is retried onto a full queue (`QueueCapIff`, reached in `OverfilledRun`); the next maintenance restores it (`CleanupRestoresBounds`).
- The age of an in-flight message is counted from its last failed report, or else from its acceptance (line 205). So maintenance leaves a claim in flight exactly when that is at most 120 seconds ago, whenever it was claimed (`ClaimSurvivesIff`).
- A swept message is said to resolve exactly once (`src/lib/dlr-timeout-sweeper.ts:152`).
  - At most once holds beside any other writers that do not leave a resolved message open (`AtMostOnce`), and fails with one that does (`ReopenedResolvesTwice`), such as the unguarded update at `src/workers/ott-worker.ts:806` after a slow send. Opening a message for the first time, as the flush at `src/lib/smpp-server.ts:922-926` does, is harmless (`FirstOpeningIsAllowed`).
  - Its receipt is pushed exactly once unless its own sweep aborted between update and push (`ExactlyOncePushed`).
  - At least once, for a due row with its own creation time and a fixed clock and configuration: exactly when fewer than 200 candidates older than it are stuck, that is, skipped or not yet due (`RowResolvedIff`). Otherwise no sweep ever selects it. One COUNT decides it.
- A text with a CR, or with a character outside latin1, does not read back from the PDF; `EscapeRoundTrip` says that these are all such texts.
- A cache entry of the credentials can belong to two of them: exactly when a name, password or API key holds a NUL, or a name begins with `k:` (`SharesEntryIff`). Exactly those credentials can get an answer that no scan for them gave within the last TTL (`AnswersOwnIff`); among trimmed, non-blank look-ups the condition is slightly narrower (`AskedAnswersOwnIff`).

## Model

| member | source | states |
|---|---|---|
| GatewayRegistry.Registry.RegisterGateway | src/lib/gateway-rest-registry.ts:78-102 | the entry of this gateway takes the new device data and keeps queue and in-flight map; every gateway's entry is the one its call history determines |
| GatewayRegistry.Registry.TouchGateway | src/lib/gateway-rest-registry.ts:105-110 | answers whether the gateway is registered; refreshes it only then |
| GatewayRegistry.Registry.UnregisterGateway | src/lib/gateway-rest-registry.ts:112-114 | the gateway is gone with its messages, all others stay as their history says |
| GatewayRegistry.Registry.EnqueueMt | src/lib/gateway-rest-registry.ts:117-133 | accepts exactly when registered, fresh and below MAX_QUEUE, and then appends |
| GatewayRegistry.Registry.ClaimLoop | src/lib/gateway-rest-registry.ts:143-149 | the loop hands out the front of the queue, as many as there are up to max, and puts each in flight |
| GatewayRegistry.Registry.DequeueMt | src/lib/gateway-rest-registry.ts:136-150 | returns exactly that front; nothing for an unknown gateway |
| GatewayRegistry.Registry.ReportMtResult | src/lib/gateway-rest-registry.ts:157-174 | ok, requeued, dropped or unknown by the in-flight item and its attempts; the state follows |
| GatewayRegistry.Registry.CleanEntry | src/lib/gateway-rest-registry.ts:203-211 | the two inner loops compute the fold of single time-outs, then single trims |
| GatewayRegistry.Registry.CleanupAll | src/lib/gateway-rest-registry.ts:196-213 | every gateway gets its own maintenance: discarded when not fresh, else timed out and trimmed |
| GatewayRegistryRuns.ExactlyOnePlace | src/lib/gateway-rest-registry.ts:78-213 | over every run with distinct message ids, each accepted message is in exactly one place: once queued, once in flight, or once finished |
| GatewayRegistryRuns.RunFlightDistinct | src/lib/gateway-rest-registry.ts:144-209 | over every run, whatever ids are enqueued, no two in-flight messages share an id |
| GatewayRegistryRuns.QueueShape | src/lib/gateway-rest-registry.ts:117-213 | the queue is retried messages followed by at most MAX_QUEUE never-claimed ones in acceptance order; within a registration the first claims are a prefix of the accepted sequence |
| GatewayRegistryRuns.TrimShapes | src/lib/gateway-rest-registry.ts:211 | when the queue is over MAX_QUEUE, the message the trim drops was claimed before |
| GatewayRegistryRuns.TrimAllKeepsNewest | src/lib/gateway-rest-registry.ts:211 | trimming leaves the last MAX_QUEUE messages of the queue and the in-flight map alone |
| GatewayRegistryRuns.CleanupRestoresBounds | src/lib/gateway-rest-registry.ts:196-213 | after maintenance no queue is over MAX_QUEUE, nothing overdue is in flight, and no stale gateway is registered |
| GatewayRegistryRuns.HandOuts | src/lib/gateway-rest-registry.ts:136-211 | the number of claims of a message is its attempts, plus one while in flight; MAX_ATTEMPTS when dropped; at least one when delivered or trimmed |
| GatewayRegistryRuns.HandOutsBounded | src/lib/gateway-rest-registry.ts:136-211 | no message is handed out more than MAX_ATTEMPTS times |
| GatewayRegistryRuns.ClaimConservesIff | src/lib/gateway-rest-registry.ts:145-146 | a claim keeps every message if and only if its id is not in flight already |
| GatewayRegistryRuns.DuplicateIdsLoseAMessage | src/lib/gateway-rest-registry.ts:131-147 | accepting any one id twice and claiming both loses a message |
| GatewayRegistryRuns.RunDrains | src/lib/gateway-rest-registry.ts:136-213 | with no new acceptances every claim, report and time-out is paid for by a measure that never grows |
| GatewayRegistryRuns.DrainBound | src/lib/gateway-rest-registry.ts:136-213 | n queued messages take at most 2 * MAX_ATTEMPTS * n such steps, and after that many nothing is left |
| GatewayRegistryCalls.SeenIsHeard | src/lib/gateway-rest-registry.ts:78-110 | over every run a registered gateway was last seen at its last registration or heartbeat; no other call counts as a sign of life |
| GatewayRegistryCalls.AcceptedOnlyWhenHeard | src/lib/gateway-rest-registry.ts:125-131 | a message is accepted only by a gateway that registered or sent a heartbeat within the last 90 seconds |
| GatewayRegistryCalls.AnswerSaysOutcome | src/lib/gateway-rest-registry.ts:157-174 | after every run: unknown exactly when not in flight, and then nothing changes; otherwise the message leaves flight and is finished as delivered, finished as dropped, or first in the queue |
| GatewayRegistryCalls.FailedReportUndoesClaim | src/lib/gateway-rest-registry.ts:144-173 | a failed report right after a claim restores queue and in-flight map, the message one attempt older at the front |
| GatewayRegistryLimits.QueueCapIff | src/lib/gateway-rest-registry.ts:117-213 | from within the cap, one call takes the queue over MAX_QUEUE if and only if it reports a failure that is retried onto a full queue |
| GatewayRegistryLimits.OverfilledRun | src/lib/gateway-rest-registry.ts:130-172 | for any messages: register, MAX_QUEUE acceptances, one claim, one acceptance, the claimed one failed: the queue holds MAX_QUEUE + 1 |
| GatewayRegistryLimits.CleanupLeavesLive | src/lib/gateway-rest-registry.ts:204-210 | maintenance of a fresh gateway leaves exactly the messages in flight that are not overdue, in order |
| GatewayRegistryLimits.ClaimSurvivesIff | src/lib/gateway-rest-registry.ts:144-210 | after any run, maintenance after a claim leaves the message in flight if and only if its last failed report, or else its acceptance, is at most INFLIGHT_TTL_MS ago; the time of the claim plays no part |
| Charging.ModeSources | src/lib/charging.ts:23-70 | only the new column gives the timed mode, nor on_dlr when billing_mode is not selected; every mode is charged on submit or on delivery, not both |
| DlrSweeper.DecisionRules | src/lib/dlr-timeout-sweeper.ts:73-97 | force_dlr_timeout on either side delivers, otherwise on_dlr fails; due exactly past one minute and the client's window, or a forced delivery's shorter supplier window |
| DlrSweeper.Tenant.Update | src/lib/dlr-timeout-sweeper.ts:276-282 | the guarded update closes exactly the rows with this id still awaiting a receipt, and answers whether there was one |
| DlrSweeper.Tenant.SweepStaleDlrs | src/lib/dlr-timeout-sweeper.ts:194-354 | the row loop with its skips computes the fold of single rows over table, counter, pushes and tallies |
| DlrSweeperRuns.RunSound | src/lib/dlr-timeout-sweeper.ts:180-346 | over every interleaving, beside writers that reopen and rebill nothing: resolved rows stay closed, one sweep holds each resolved row, snapshots agree with open rows, every resolution is pushed, held or abandoned |
| DlrSweeperRuns.AtMostOnce | src/lib/dlr-timeout-sweeper.ts:276-346 | however sweeps interleave, and whatever other writers do short of leaving a resolved message open, each message is resolved, pushed and counted at most once, and pushed or counted only if resolved |
| DlrSweeperRuns.OutsideSafeIff | src/lib/dlr-timeout-sweeper.ts:276-320 | an outside write keeps the protocol safe if and only if it does not leave a resolved message open |
| DlrSweeperRuns.ReopenedResolvesTwice | src/lib/dlr-timeout-sweeper.ts:180-320 | after any write that does, the next sweep that finds the row due resolves the message a second time |
| DlrSweeperRuns.FirstOpeningIsAllowed | src/lib/smpp-server.ts:922-926 | over every run, opening a message that was never open, with any parties and amounts, neither reopens nor rebills |
| DlrSweeperRuns.ExactlyOncePushed | src/lib/dlr-timeout-sweeper.ts:283-347 | with all sweeps done, aborts allowed, a message was pushed exactly once if and only if it was resolved and not abandoned by an abort after its update |
| DlrSweeperRuns.EveryResolutionPushed | src/lib/dlr-timeout-sweeper.ts:283-347 | with all sweeps done and no abort, the messages resolved are exactly those pushed exactly once |
| DlrSweeperRuns.CounterMatchesBumps | src/lib/dlr-timeout-sweeper.ts:329-340 | sms_counter grows by one for each bumped message and otherwise stays |
| DlrSweeperRuns.UpdateFollowsMatrix | src/lib/dlr-timeout-sweeper.ts:262-323 | a guarded update from a stale copy changes at most one row, open before, as the billing matrix says for its own client and supplier; every other row stays |
| DlrSweeperRuns.SweepStepsFollowMatrix | src/lib/dlr-timeout-sweeper.ts:262-323 | over every interleaving beside writers that reopen and rebill nothing, each step of a sweep leaves a row alone or closes it by the matrix under what some sweep read |
| DlrSweeperRuns.MoneyRules | src/lib/dlr-timeout-sweeper.ts:262-323 | over every interleaving a row is unchanged or changed by one resolution of the matrix: cost only from 0 for on_dlr on forced delivery, supplier cost only from 0 under the supplier's force mode, FAILED changes no amount |
| DlrSweeperRuns.Untouched | src/lib/dlr-timeout-sweeper.ts:85-97 | rows with neither an on_dlr client nor a force_dlr_timeout party stay as they are over every run |
| DlrSweeperRuns.ProfitKept | src/lib/dlr-timeout-sweeper.ts:317-322 | profit = cost - supplier_cost is kept by every run |
| DlrSweeperReceipts.ReceiptsMatchTable | src/lib/dlr-timeout-sweeper.ts:276-346 | over every interleaving, beside writers that leave resolved messages alone, each forced receipt carries the status and the price of its row, and the counter is bumped only for delivered messages |
| DlrSweeperProgress.SweepEffect | src/lib/dlr-timeout-sweeper.ts:213-351 | a sweep resolves exactly the due rows it selected, counts them, and leaves every other row |
| DlrSweeperProgress.SweepProgress | src/lib/dlr-timeout-sweeper.ts:180-351 | for every point in time: with m stuck candidates up to it, a sweep resolves at least the smaller of the due ones up to it and 200 - m |
| DlrSweeperProgress.DueLeft | src/lib/dlr-timeout-sweeper.ts:180-351 | for every point in time: after n sweeps at most due - n * (200 - m) due messages up to it are left |
| DlrSweeperProgress.RowResolved | src/lib/dlr-timeout-sweeper.ts:180-351 | with m < 200 stuck candidates no younger than a due row, it is closed by its plan within ceil(due rows no younger / (200 - m)) sweeps |
| DlrSweeperProgress.RowStarved | src/lib/dlr-timeout-sweeper.ts:180-192 | behind 200 strictly older stuck candidates a due row is never selected by any later sweep and never changes |
| DlrSweeperProgress.RowResolvedIff | src/lib/dlr-timeout-sweeper.ts:180-351 | the exact condition per row: given as many sweeps as due rows no younger, a due row with its own creation time is closed if and only if fewer than 200 older candidates are stuck |
| DlrSweeperProgress.AllDueResolved | src/lib/dlr-timeout-sweeper.ts:180-351 | when m < 200 stuck candidates are as old as the youngest due row, or older, ceil(due / (200 - m)) sweeps close every due row by its plan and change no other; younger stuck rows do not count |
| DlrSweeperProgress.Starvation | src/lib/dlr-timeout-sweeper.ts:180-192 | when 200 stuck candidates are older than each due row, a sweep changes nothing |
| DlrSweeperProgress.LoopIsRun | src/lib/dlr-timeout-sweeper.ts:213-351 | the loop of one sweep computes what its protocol steps compute when no other sweep interferes |
| DlrQueue.DlrQueues.EnqueueDlr | src/lib/dlr-queue.ts:23-41 | appends, dropping the oldest at the cap; depth and dropped are as returned; other clients unchanged |
| DlrQueue.DlrQueues.DequeueAllDlrs | src/lib/dlr-queue.ts:48-54 | returns the whole queue and removes it; other clients unchanged |
| DlrQueue.DlrQueues.RequeueDlrs | src/lib/dlr-queue.ts:60-65 | appends the receipts after those that arrived meanwhile, whatever the cap |
| DlrQueue.DlrQueues.CleanEach | src/lib/dlr-queue.ts:112-125 | each key keeps its filtered queue or goes; the answer counts the keys that changed |
| DlrQueue.DlrQueues.CleanupStaleDlrs | src/lib/dlr-queue.ts:107-128 | stale and undated receipts leave every queue; the answer counts the queues that changed |
| DlrQueue.FilteredIsExact | src/lib/dlr-queue.ts:113-116 | the filter loses every stale or undated receipt and no other, however often it occurs |
| DlrQueueRuns.ExactlyOnePlace | src/lib/dlr-queue.ts:23-128 | each enqueued receipt is in exactly one of queued, claimed, dropped and stale; a requeue that gives back nothing claimed is left aside, so the real queue is meant when there is none (`QueueIsContents`) |
| DlrQueueRuns.QueueIsContents | src/lib/dlr-queue.ts:23-128 | over every run whose requeues give back claimed receipts, the partition holds and its queued part is the real queue, in order |
| DlrQueueOrder.RequeueOrderIff | src/lib/dlr-queue.ts:60-65 | from an ordered state, appending given-back receipts keeps what is out followed by the queue in enqueue order if and only if there are none, or the queue is empty and they are the newest claimed ones, in order |
| DlrQueueOrder.PrependOrderIff | src/lib/dlr-queue.ts:56-65 | prepending them, as the comment says, would keep it if and only if they are the newest claimed ones, in order |
| DlrQueueOrder.GivingBackKeepsOrderIff | src/lib/dlr-queue.ts:60-65 | the same over runs: after any orderly run, one more requeue keeps the order if and only if it is orderly |
| DlrQueueOrder.OrderlyRunsKeepOrder | src/lib/dlr-queue.ts:23-128 | after every run with orderly requeues only, what is claimed and not given back, followed by the queue, is the enqueue order minus the dropped and stale |
| DlrQueueOrder.ClaimsFollowEnqueueOrder | src/lib/dlr-queue.ts:23-54 | without requeue the depth stays at most 1000, and the claims followed by the queue are the enqueue order minus the dropped and stale |
| DlrPersist.PersistentQueues.EnqueueDlrPersist | src/lib/dlr-queue-persist.ts:21-36 | memory enqueues, the table gets the row and is pruned when memory dropped one; other tenants unchanged |
| DlrPersist.PersistentQueues.DequeueAllDlrsPersist | src/lib/dlr-queue-persist.ts:41-56 | returns the queue; its message ids leave the table of this client |
| DlrPersist.PersistentQueues.PersistEach | src/lib/dlr-queue-persist.ts:71-75 | the loop inserts each receipt in order |
| DlrPersist.PersistentQueues.RequeueDlrsPersist | src/lib/dlr-queue-persist.ts:61-76 | memory and table both get the receipts at the end |
| DlrPersist.OtherTenantKept | src/lib/dlr-queue-persist.ts:21-76 | what the calls of another tenant on the shared memory promise to keep is enough to keep a tenant and its table valid |
| DlrPersist.LoadDlrsFromDb | src/lib/dlr-queue-persist.ts:84-125 | every client's queue is what enqueueing its stored receipts in row order gives; other tenants unchanged |
| DlrPersistMirror.PruneFrom | src/lib/dlr-queue-persist.ts:230-238 | the pruning DELETE keeps the last 1000 rows of its client, in order, and every row of the others |
| DlrPersistMirror.PersistRows | src/lib/dlr-queue-persist.ts:71-75 | re-queued receipts come after the client's rows, in order |
| DlrPersistMirror.DeleteRows | src/lib/dlr-queue-persist.ts:245-252 | deleting the dequeued ids empties the client's rows and keeps the others' |
| DlrPersistMirror.StepMirrors | src/lib/dlr-queue-persist.ts:21-76 | a call keeps rows equal to queues if and only if it is not an enqueue to a queue over the cap |
| DlrPersistMirror.TableMirrorsQueues | src/lib/dlr-queue-persist.ts:21-76 | after every run with no requeue past the cap, each client's rows are its queue in order, within the cap; `MirrorsIff` has all runs |
| DlrPersistMirror.OrderedRowsOf | src/lib/dlr-queue-persist.ts:98-103 | ORDER BY client_id, created_at keeps each client's insertion order |
| DlrPersistMirror.ReloadedIsLast | src/lib/dlr-queue-persist.ts:105-119 | loading any stored receipts into a queue within the cap leaves the newest that fit, in order |
| DlrRecovery.RowsAreTail | src/lib/dlr-queue-persist.ts:21-76 | after every run, requeues past the cap included, each client's rows are the newest part of its queue, in order: all of it or at least 1000 |
| DlrRecovery.MirrorsIff | src/lib/dlr-queue-persist.ts:21-76 | after every run, a client's rows are its whole queue if and only if nothing was enqueued to it over the cap since it was last claimed |
| DlrRecovery.OverCapBreaksMirror | src/lib/dlr-queue-persist.ts:30-76 | more than 1000 receipts given back and one more enqueued: the table no longer mirrors the queue |
| DlrRecovery.RecoversNewest | src/lib/dlr-queue-persist.ts:84-125 | crash recovery: after every run, loading the table into empty memory gives the newest 1000 receipts of each queue, in order, up to the default fill-ins |
| DlrRecovery.RecoversAllIff | src/lib/dlr-queue-persist.ts:84-125 | the whole queue is recovered if and only if it is within the cap when the restart comes |
| DlrRecovery.CrashRecovery | src/lib/dlr-queue-persist.ts:84-125 | the case without a requeue past the cap: loading the table into empty memory rebuilds every queue, up to the default fill-ins |
| DlrPersistMirror.FillInKeeps | src/lib/dlr-queue-persist.ts:107-116 | a queue comes back unchanged if and only if every receipt in it has an error code |
| RateLimiter.Limiter.Sweep | src/lib/gateway-rest-http.ts:27-31 | drops exactly the addresses without a recent hit |
| RateLimiter.Limiter.RateLimited | src/lib/gateway-rest-http.ts:18-33 | refuses at RATE_MAX recent hits, else records the hit; sweeps past 10,000 addresses |
| RateLimiter.RunAgrees | src/lib/gateway-rest-http.ts:20-31 | the pruned hits of an address and its full history agree on everything recent, now and later |
| RateLimiter.DecisionIsExact | src/lib/gateway-rest-http.ts:18-33 | a request is refused exactly when the full, unpruned history holds RATE_MAX accepted hits in the 60 seconds up to it |
| RateLimiter.WindowBound | src/lib/gateway-rest-http.ts:14-33 | in every 60-second window of every run at most RATE_MAX requests of one address are accepted |
| AuthCache.Gateway.ScanTenants | src/lib/gateway-rest-auth.ts:200-229 | the loops answer the first match of the first readable tenant that has one |
| AuthCache.Gateway.Prune | src/lib/gateway-rest-auth.ts:217-222 | exactly the entries older than the TTL go |
| AuthCache.Gateway.LookUpCredential | src/lib/gateway-rest-auth.ts:191-231 | the answer and the new cache are those of a cache determined by the logged calls; the call is logged with the tables it could read; a scan made within the last TTL under the same cache key gave the answer |
| AuthCache.Gateway.Authenticate | src/lib/gateway-rest-auth.ts:38-84 | blank credentials fail without a look-up; any other call is logged with the tables of that moment and answered by the cache that the earlier calls determine, with what a scan gave within the last TTL |
| AuthCache.Gateway.Rotate | src/lib/gateway-rest-auth.ts:117-145 | a known supplier gets the new key and every API-key entry is evicted, as logged; otherwise nothing changes |
| AuthCache.EvictKeys | src/lib/gateway-rest-auth.ts:131-134 | exactly the entries whose key begins with k: go |
| AuthCache.ScanFinds | src/lib/gateway-rest-auth.ts:53-77 | the scan answers if and only if some readable tenant has a matching active supplier |
| AuthCache.CacheKeyInjective | src/lib/gateway-rest-auth.ts:191 | NUL-free credentials with one cache key are the same credential |
| AuthCache.SharesEntryIff | src/lib/gateway-rest-auth.ts:44-191 | the exact condition: another credential has the same cache key if and only if name, password or API key holds a NUL or the name begins with k: |
| AuthCache.NulKeysCollide | src/lib/gateway-rest-auth.ts:44 | every credential with a NUL in its name or API key shares its cache entry with another |
| AuthCache.AnswersAreScans | src/lib/gateway-rest-auth.ts:38-231 | over every run, each answer is that of a scan made within the last TTL under the same cache key |
| AuthCache.AnswersAreRecentScans | src/lib/gateway-rest-auth.ts:38-231 | over every run, when no NUL was looked up or the credential shares its entry with none, each answer is the full scan for that very credential, now or at one of its own look-ups within the last TTL |
| AuthCache.WrongAnswer | src/lib/gateway-rest-auth.ts:44-193 | for every two credentials with one cache key, a look-up of the one makes the next answer to the other differ from its own scan |
| AuthCache.AnswersOwnIff | src/lib/gateway-rest-auth.ts:38-231 | the exact condition: over all runs every answer to a credential is a scan of its own within the last TTL if and only if no other credential has its cache key |
| AuthCache.AskedAnswersOwnIff | src/lib/gateway-rest-auth.ts:41-191 | the same for trimmed, non-blank look-ups: if and only if none of its NULs can end a trimmed name and its entry does not read as a trimmed API key |
| AuthCache.FreshAfterRotate | src/lib/gateway-rest-auth.ts:131-135 | right after a successful rotation an API key is answered by a fresh scan |
| AuthCache.OldKeyRevoked | src/lib/gateway-rest-auth.ts:112-135 | right after a rotation no other key is answered with the rotated supplier, whatever was cached |
| AuthCache.PruningIsInvisible | src/lib/gateway-rest-auth.ts:216-222 | over every run with a clock that does not go back, pruning changes no answer |
| WrapText.WrapLines | src/lib/billing-service.ts:617-632 | the loop over strings computes the greedy grouping of the words |
| WrapText.WordsKeepCharacters | src/lib/billing-service.ts:618 | splitting into words loses the white space of a text and no other character |
| WrapText.WordsOfLine | src/lib/billing-service.ts:618-630 | splitting a line joined from words gives exactly those words back |
| WrapText.GreedyLaysOut | src/lib/billing-service.ts:617-632 | greedy lines hold the words in order, and each fits or is one word |
| WrapText.GreedyIsMinimal | src/lib/billing-service.ts:617-632 | no in-order split into fitting lines has fewer lines |
| WrapText.WrappedIsBest | src/lib/billing-service.ts:617-632 | for every text and width: the lines' words are the text's words in order, wide lines are single words, and no layout has fewer lines |
| PdfEscape.PassesAreOneMap | src/lib/billing-service.ts:610-615 | the three replace passes equal one per-character map |
| PdfEscape.ReadEscaped | src/lib/billing-service.ts:647-658 | a literal-string reader stops at the added parenthesis with the text, line ends read as LF |
| PdfEscape.EscapeRoundTrip | src/lib/billing-service.ts:610-658 | the text reads back unchanged with the reader exactly at the end if and only if it has no CR and fits latin1 |
| PdfFile.WriteObjects | src/lib/billing-service.ts:807-812 | each recorded offset is the length of the file before its object |
| PdfFile.WriteEntries | src/lib/billing-service.ts:815-817 | one entry per object, with its offset, in order |
| PdfFile.BuildPdf | src/lib/billing-service.ts:798-819 | the writer's loops build the file of its objects, table and trailer, as latin1 bytes |
| PdfFile.XrefFound | src/lib/billing-service.ts:813-818 | reading back from the end, startxref is the offset of the table |
| PdfFile.EntriesAre20Bytes | src/lib/billing-service.ts:815-817 | every entry is 20 bytes if and only if every object starts below 10^10 |
| PdfFile.ObjectsFound | src/lib/billing-service.ts:798-819 | a reader going through startxref and the table finds each object at the offset it was written at |
| PdfFile.StreamRead | src/lib/billing-service.ts:805 | /Length leads a reader to exactly the stream's bytes |
| PdfFile.FileBytes | src/lib/billing-service.ts:819 | encoding the file as latin1 moves no offset: it is the file of the encoded objects |
| PdfFile.PdfObjectsFound | src/lib/billing-service.ts:966-985 | in every file below 10^10 bytes, as written, each object is found at its entry's offset with its text there |
| PdfFile.PdfContentRead | src/lib/billing-service.ts:966-985 | for every invoice or rate sheet below 10^10 bytes, looking up object 6 and reading /Length bytes gives the content |
| TokenBucket.Pacer.SubmitOne | scripts/smpp-loop-loadgen.js:31-33 | one more message is submitted; messages carry the numbers 1, 2, 3, ... in order |
| TokenBucket.Pacer.OnResponse | scripts/smpp-loop-loadgen.js:40-47 | each response is counted as ok or as failed |
| TokenBucket.Pacer.Tick | scripts/smpp-loop-loadgen.js:54-68 | a tick refills, then submits in order as many messages as it has whole tokens and there are left; it finishes exactly when all are sent and answered |
| TokenBucket.RateBound | scripts/smpp-loop-loadgen.js:51-72 | sends in ticks i..j never exceed tps + tps * (tj - ti) / 1000 |
| TokenBucket.NothingLost | scripts/smpp-loop-loadgen.js:54-64 | with small gaps, sends and tokens together are all that was earned since the first tick |
| TokenBucket.ExactRate | scripts/smpp-loop-loadgen.js:51-72 | with small gaps (for tps = 1, gaps of length 0), the number sent is exactly the smaller of total and tps + floor(tps * (t - t1) / 1000) |
| TokenBucket.RateAtLeast | scripts/smpp-loop-loadgen.js:51-72 | with any gaps up to g ms, at any rate: all is sent, or sends times 1 + g / 1000 are less than one message behind tps + tps * (t - t1) / 1000 |
| AmiMessage.PrintAction | src/lib/asterisk-ami.ts:198-202 | the text grown line by line is the printed form of the action's fields |
| AmiMessage.ParseAmiMessage | src/lib/asterisk-ami.ts:390-408 | the line loop computes the fold of single lines, continuation lines included |
| AmiMessage.ParsePrinted | src/lib/asterisk-ami.ts:390-408 | a printed message parses back to its fields |
| AmiMessage.ParseMultiline | src/lib/asterisk-ami.ts:394-406 | indented lines extend the field before them, trimmed and one line each; the fields before it stand |
| AmiMessage.StreamFrames | src/lib/asterisk-ami.ts:198-203 | a stream of printed messages splits into exactly their frames, nothing left over |
| AmiClient.Client.ProcessBuffer | src/lib/asterisk-ami.ts:131-159 | frames go out in order, each parsed and routed; it stops early only after a handled response or Goodbye, and otherwise leaves no complete frame |
| AmiClient.Client.OnData | src/lib/asterisk-ami.ts:75-78 | a chunk extends the input; frames handed on before stay, in order |
| AmiClient.FramesRebuild | src/lib/asterisk-ami.ts:131-137 | for any chunking the frames handed on are a prefix of the input split at empty lines, and frames plus buffer rebuild the input |
| AmiClient.ChunkIndependent | src/lib/asterisk-ami.ts:75-78 | two chunkings of one input agree on the frames as far as both went, and wholly when none waits |
| AmiClient.PrintedStreamArrives | src/lib/asterisk-ami.ts:131-203 | a printed stream fed in any chunks arrives as its field maps, in order; all of them when no frame waits |
| SmppBind.ScanStrings | test-smpp-raw-bind.ts:76-83 | the index loop reads the NUL-ended strings, an unended tail in hex |
| SmppBind.ParsePdu | test-smpp-raw-bind.ts:70-85 | header fields, body and strings of any buffer; a buffer shorter than a header fails |
| SmppBind.Receiver.OnData | test-smpp-raw-bind.ts:136-184 | a chunk is appended, and a PDU handled once its announced length is there |
| SmppBind.HexRoundTrip | test-smpp-raw-bind.ts:84 | the hex form of a body determines its bytes |
| SmppBind.UnendedTail | test-smpp-raw-bind.ts:79-80 | a tail without its NUL is given whole, in hex |
| SmppBind.HeaderRead | test-smpp-raw-bind.ts:61-67 | the four header words read back as written, with the body behind them |
| SmppBind.BindBodyRead | test-smpp-raw-bind.ts:52-60 | the body reads as system_id, password, system_type, the version character, an empty string and address_range |
| SmppBind.BindParses | test-smpp-raw-bind.ts:48-85 | the built PDU parses to its exact length, id, status 0, sequence number and strings |
| SmppBind.FeedWhole | test-smpp-raw-bind.ts:136-184 | fed in any chunks, a PDU is handled once complete and not before, whatever follows it |
| SmppBind.BindRoundTrip | test-smpp-raw-bind.ts:48-184 | the built bind PDU, fed in any chunks, arrives with every field as given |

## Left out

What the stated properties assume or weaken:

- DlrSweeperRuns.AtMostOnce: message ids in the table are distinct and rows are not deleted. That no outside write leaves a resolved message open is a condition on the run, and the exact one (`OutsideSafeIff`).
- DlrSweeperRuns.SweepStepsFollowMatrix: an outside write may give an open message other parties or amounts only while no sweep has read it; a sweep would bill by its stale copy.
- DlrSweeperRuns.MoneyRules: over runs of sweeps and inserts only, since it compares a row with its first value; `SweepStepsFollowMatrix` has the other writers.
- DlrSweeperReceipts.ReceiptsMatchTable: other writers may not change a resolved row, as some in the repository do when a late receipt arrives.
- DlrSweeperProgress.RowResolvedIff: for a row created at the same instant as a stuck one the order of equal rows in the SELECT decides, which is not fixed; `RowResolved` and `RowStarved` bound it from both sides.
- DlrSweeperRuns.ProfitKept: other writers are assumed to write profit = cost - supplier_cost.
- DlrSweeperProgress.AllDueResolved: clock and configuration are fixed during the sweeps, and no message is added; the same holds for the results on single rows.
- GatewayRegistryRuns.ExactlyOnePlace: needs distinct message ids, which the callers draw; `ClaimConservesIff` and `DuplicateIdsLoseAMessage` show that and where it fails without.
- DlrQueueRuns.ExactlyOnePlace: a requeue of receipts that were not claimed is not tracked, see the next line.
- DlrQueueRuns.QueueIsContents: a requeue gives back receipts that were claimed and not yet given back, as the flush does.
- DlrRecovery.RecoversNewest: database writes are applied in issue order and none fails, TTL cleanup is excluded (memory uses submitDate, the table created_at), rows of one tenant have distinct creation times, and columns are long enough.
- RateLimiter.DecisionIsExact: the clock does not go back.
- AuthCache.PruningIsInvisible: each look-up is one atomic step with one clock reading, and the clock does not go back.
- AmiClient.PrintedStreamArrives: a complete frame may wait in the buffer after an early return, so arrival is a prefix until the next chunk. Keys contain no ": ", keys and values no line breaks, values no trailing spaces.
- SmppBind.BindRoundTrip: fields are NUL-free ASCII and the version is non-zero and seven-bit.
- TokenBucket.ExactRate: says nothing at tps = 1 unless ticks share one time; `RateAtLeast` bounds what is sent there and for larger gaps.
- TokenBucket.RateAtLeast: arithmetic is over reals; floating-point error, a NaN rate and a negative rate are not modelled.

What is simplified:

- One clock reading per call: registration, maintenance and reports read the clock more than once.
- Registry entries and queued messages are values in a map, not shared objects; a caller that kept an entry after re-registration is not modelled.
- Map keys made of two numbers are pairs, not formatted strings.
- Connection types are an enumeration; case folding and COALESCE of the column are left out. NULL amounts read as 0 and amounts are exact reals.
- Rate look-ups, parseInt of dates, time-outs already parsed, and randomly drawn keys are parameters.
- Characters are UTF-16 code units without surrogates; decoding of UTF-8 per received chunk is left out.
- The content lines of a PDF are arbitrary; placing text on the page and formatting numbers are left out.
- Event listeners of the AMI client are a log of routed messages; listeners that act or remove themselves are left out, as are field names with a meaning to JavaScript objects.

What is not modelled:

- Postgres, HTTP, sockets and timers; `getRestGatewayStats`, `ensureGatewayApiKey`, `getGatewayApiKey` and the supplier status writes.
- The webhook and queue delivery of a forced receipt beyond what is pushed and to whom.
- `src/lib/dlr-poller.ts`: unguarded updates in overlapping cycles.
- The SQL of `buildLineItems`, whose join can multiply rows; `newPageIfNeeded`, which adds no page.
- `originate` of the AMI client, the PDUs and the error counts by status of the load generator, hexdump and console output of the bind tool.
- User interface, seeding, migration and healing scripts, tokens and password hashing.
