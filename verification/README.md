# Verified models of the Okaiwa server

Dafny models of the six stateful cores of the server, with proofs about every run
of them. Each core has the same parts:

- a **System** value: what the store (Redis, Postgres, a module-level map) holds,
  the requests in progress, and histories that only the statements use;
- **Event** and **Step**: one Redis command, SQL statement, clock read or stretch of
  synchronous code, so that a sequence of events is an arbitrary interleaving of
  requests; an event that cannot happen changes nothing, so every sequence is a run;
- an invariant kept by every step, and the theorems over all runs;
- where the source is a class that updates state, a **class** whose methods follow it
  statement by statement. `Await` marks the points where a method waits, `env` says what
  other requests and the clock do there, and each method is proved to be one request of
  an interleaved run, so the theorems over runs speak of what it returns.

| files | core |
|---|---|
| `MessageQueue*.dfy`, `AcceptedMessages.dfy`, `Mailbox.dfy`, `SortedSet.dfy` | relay message queue over Redis |
| `PreKeys*.dfy`, `PreKeyPools.dfy`, `KeyController.dfy` | pre-key table: upload and fetch (X3DH sections 3.2 and 3.3, PQXDH sections 3.2 and 3.3) |
| `RateLimit*.dfy` | fixed-window rate limiter |
| `TokenText.dfy`, `Tokens.dfy` | session and device tokens |
| `Balance*.dfy` | balance cache |
| `RoundRobin.dfy`, `ChainProviderService.dfy`, `Chains.dfy` | endpoint filtering and round robin |

`dafny verify dfyconfig.toml` checks the whole project.

## Assumptions

- One clock that never goes back is shared by the services and Redis; counters do not overflow.
- A Redis key with an expiry is present while the clock (in milliseconds) is before the
  expiry. MULTI/EXEC, and every single command, is atomic. Members of a sorted set with
  equal scores are in byte order. A sorted set that becomes empty is deleted.
- Message ids may be reused, as long as every enqueue is safe when it runs (`SafeToSend`): no
  other device's inbox refers to the id, and no dequeue in progress still has it to fetch or to
  clean up. Runs in which no id is reused (`NoReuse`) are safe (`NoReuseIsSafe`); the validator
  calls ids client-generated UUIDs used for deduplication. `ReuseExact` shows that the condition
  is exact, and `MessageQueueReuseRuns` has runs that go wrong without it.
- `createMany` is all-or-nothing. A claiming UPDATE locks its row in one step (its
  statement snapshot and the lock are taken together) and commits in another; a request may fail
  at any point, which rolls back the claim it has not committed.
- HMAC-SHA256 is a function from secret and text to 32 bytes, of which nothing else is assumed.
- JavaScript's `Number` reads decimal digits up to 2^53 exactly; on any other text it may
  answer anything, NaN and the infinities included.

## Where the code and its documentation differ

The model follows the code.

- `relay/app/services/message_queue_service.ts:21` says inbox entries inherit the TTL of their
  messages; the code gives the inbox key one TTL, refreshed on each enqueue, so an entry inherits the
  TTL of its message if and only if no message for that device was enqueued later (`InheritExact`;
  `EntryOutlives` is a run in which an entry is left behind). A dequeue then takes out exactly the
  entries it found without a message (`CleanupRemoves`, `WholeCleans`). The comment at lines 196-200
  describes a lookup that `purge` does not make: it only deletes the message key.
- `identity/app/controllers/key_controller.ts:217-224` says a one-time key is deleted in the same
  transaction as the read; the code marks the row consumed, keeps it, and spreads one fetch over
  several statements with no enclosing transaction.
- `relay/app/middleware/rate_limit_middleware.ts:16-19` lists a separate budget per kind of traffic;
  the code keeps one counter per device and window that all routes share, so sends use up the budget of
  pendings (`SendsUsePendings`, `RefusedExact`), and there is no WebSocket limit.
- `identity/app/controllers/key_controller.ts:11-14` says each one-time key is used for exactly one
  session establishment; the code gives it to at most one request, and a consumed key is shown to a client
  if and only if that request was answered (`DeliveredExact`); it may fail after its claim committed, and
  then nobody is shown the key (`KeyLost`).
- `blockchain/app/controllers/balance_controller.ts:19-21` says clients asking for one address within 30 s
  cause one request to the provider; a lookup before the first reply is stored, or after a failed one,
  asks again (`SecondAskExact`, `BothAsk`).
- `blockchain/app/services/chain_provider_service.ts:212` says endpoints with an empty key are
  dropped; the code also drops one whose key ends in a slash.

## Model

| member | source | states |
|---|---|---|
| SortedSet.ListingSorted | relay/app/services/message_queue_service.ts:128 | ZRANGEBYSCORE names every member of the set, each once, in strictly ascending order of (score, member) |
| SortedSet.Remove | relay/app/services/message_queue_service.ts:177 | ZREM leaves exactly the members that are not named |
| SortedSet.Add | relay/app/services/message_queue_service.ts:95 | ZADD moves a present member to its new score and disturbs no other |
| SortedSet.AddKeepsOrder | relay/app/services/message_queue_service.ts:95 | ZADD keeps the set strictly ordered by (score, member) with distinct members |
| Common.LessExact | relay/app/services/message_queue_service.ts:128 | the byte order of members with equal scores: a proper beginning, or the lesser character where two texts first differ |
| MessageQueueContent.LiveIs | relay/app/services/message_queue_service.ts:65-214 | over any run, a message is live exactly if its last enqueue was not acknowledged and is less than 604800 s ago |
| MessageQueueContent.ReturnedWasSent | relay/app/services/message_queue_service.ts:124-181 | over every run of safe enqueues, each message a dequeue returns has the id, blob, clock reading and sender of the last enqueue under that id, for that device, not acknowledged nor expired at the inbox read |
| MessageQueueContent.SentIsReturned | relay/app/services/message_queue_service.ts:124-181 | and each message enqueued for the device before the inbox read, and neither replaced nor acknowledged nor expired at the return, is returned with that content |
| MessageQueueInvariant.StepKeepsInv | relay/app/services/message_queue_service.ts:65-214 | every command of any client whose enqueues are safe, and the passing of time, keeps index, messages and calls in progress consistent, and no message comes back to life |
| MessageQueueInvariant.RunKeepsInv | relay/app/services/message_queue_service.ts:65-214 | the same over every interleaving of safe enqueues |
| MessageQueueInvariant.NoReuseIsSafe | relay/app/validators/message_validator.ts:34-39 | in every run in which no id is reused all enqueues are safe, so the claims about safe runs hold of it |
| MessageQueueInvariant.EnqueueKeepsStore | relay/app/services/message_queue_service.ts:77-104 | the enqueue transaction, of an id no other inbox refers to, leaves the message indexed under its own score by an inbox that outlives it |
| MessageQueueInvariant.ZRemKeepsStore | relay/app/services/message_queue_service.ts:176-178 | removing references that are not of the device's live messages keeps every live message indexed |
| MessageQueueRuns.Sandwich | relay/app/services/message_queue_service.ts:124-181 | over every run of safe enqueues, whatever interleaves, a dequeue returns every message of the device enqueued before its inbox read and live when it returns, and only messages live at the inbox read, each as stored |
| MessageQueueRuns.ResultSorted | relay/app/services/message_queue_service.ts:128-173 | every result is strictly sorted by (enqueuedAt, messageId), so without duplicates |
| MessageQueueRuns.NoStaleBlob | relay/app/services/message_queue_service.ts:84-95 | a GET hands out a blob only before MESSAGE_TTL_SECONDS have passed since its transaction |
| MessageQueueRuns.NoOrphans | relay/app/services/message_queue_service.ts:77-104 | in every state reached by safe enqueues a live message is in its recipient's inbox and no other, under its enqueuedAt, and the inbox key outlives it |
| MessageQueueRuns.ResultFresh | relay/app/services/message_queue_service.ts:138-173 | each returned message was fetched between the inbox read and the return, before MESSAGE_TTL_SECONDS had passed since its transaction |
| MessageQueueRuns.CleanupRemoves | relay/app/services/message_queue_service.ts:175-178 | under any interleaving the closing ZREM takes out of the device's inbox exactly the references found missing, and leaves other inboxes and all messages alone |
| MessageQueueRuns.CleanupSafe | relay/app/services/message_queue_service.ts:175-178 | with safe enqueues that drops no reference to a live message, and of what the call listed it leaves only references of messages the call returns |
| MessageQueueExpiry.InheritExact | relay/app/services/message_queue_service.ts:97-102 | over every run without reuse, the inbox entry of a live message inherits its TTL if and only if no message for that device was enqueued later |
| MessageQueueExpiry.EntryOutlives | relay/app/services/message_queue_service.ts:21 | with messages the validator accepts, a run in which an inbox entry outlives its message |
| MessageQueueExpiry.LateRun | relay/app/services/message_queue_service.ts:138-181 | for any message, a run in which it is fetched in time but returned only after its TTL |
| MessageQueueRuns.AckedOnce | relay/app/services/message_queue_service.ts:193-214 | over any run without reuse at most one acknowledgement of an id answers true |
| MessageQueueRuns.AcksWithinSends | relay/app/services/message_queue_service.ts:193-214 | over any run whatever, the acknowledgements of an id that answer true are at most its enqueues |
| MessageQueueRuns.AckedReplaced | relay/app/controllers/websocket_controller.ts:116-129 | what a dequeue begun after a successful acknowledgement returns under the id comes from a later enqueue |
| MessageQueueRuns.AckedNeverReturned | relay/app/controllers/websocket_controller.ts:116-129 | without reuse, no dequeue begun after a successful acknowledgement returns the id, on any device |
| MessageQueueReuse.ReuseExact | relay/app/services/message_queue_service.ts:65-214 | over any run, ids reused or not: at no point can an orphan or a message returned to the wrong device, or to a dequeue begun before its enqueue, still come about, if and only if every enqueue was safe |
| MessageQueueReuse.SafeExact | relay/app/services/message_queue_service.ts:65-214 | an enqueue of any id is harmless, whatever dequeues, acknowledgements and expiries follow, if and only if it is safe to send |
| MessageQueueReuse.EnqueueExact | relay/app/services/message_queue_service.ts:77-104 | the transaction by itself keeps index and messages in agreement if and only if no other device's inbox refers to the id |
| MessageQueueReuse.CleanupExact | relay/app/services/message_queue_service.ts:176-178 | a closing ZREM keeps index and messages in agreement if and only if none of its ids is a live message of that device |
| MessageQueueReuseRuns.ReuseOrphans | relay/app/validators/message_validator.ts:34-39 | with a message the validator accepts, a run in which an id reused between GET and ZREM leaves a live message that no inbox refers to |
| MessageQueueReuseRuns.ReuseMisroutes | relay/app/validators/message_validator.ts:34-39 | with messages the validator accepts, a run in which an id reused for a second device is returned to the first |
| MessageQueueReuseRuns.ReuseMisroutesUnlisted | relay/app/services/message_queue_service.ts:141-142 | the same although no inbox refers to the id any more when it is reused, as a dequeue in progress still has it to fetch |
| Mailbox.QueueRefinesMailbox | relay/app/services/message_queue_service.ts:65-214 | over every sequence of whole calls and waits in which no id is sent to two devices, the queue answers exactly as a set of live entries per device, replaced when sent again, dropped on acknowledgement or at the TTL |
| Mailbox.AnswersUnique | relay/app/services/message_queue_service.ts:118-122 | the mailbox determines every answer, order included |
| Mailbox.WholeCleans | relay/app/services/message_queue_service.ts:175-178 | after a whole dequeue with its clean-up, exactly the references to live messages are left in the device's inbox |
| Mailbox.CleanupUnobservable | relay/app/services/message_queue_service.ts:175-178 | whichever dequeues skip their closing ZREM, no answer of any later call changes |
| MessageQueueService.MessageQueueService.Enqueue | relay/app/services/message_queue_service.ts:65-104 | the clock is read before the transaction, and the message is then stored as of that reading; if it was safe to send the invariant is kept |
| MessageQueueService.MessageQueueService.Dequeue | relay/app/services/message_queue_service.ts:124-181 | under any interference the loop returns the result of one interleaved call, to which the claims above apply |
| MessageQueueService.MessageQueueService.Purge | relay/app/services/message_queue_service.ts:193-214 | answers true exactly when the message was live, and afterwards it is not |
| PreKeys.PickSpec | identity/app/controllers/key_controller.ts:256-305 | a query finds nothing exactly when no row qualifies, and else a qualifying row at the end of the key order it asks for |
| PreKeysInvariant.StepKeepsInv | identity/app/controllers/key_controller.ts:104-380 | every statement, commit or failure keeps key ids unique, locks with their holders, and each consumed row with exactly one request |
| PreKeysInvariant.RunKeepsInv | identity/app/controllers/key_controller.ts:104-380 | the same over every interleaving; rows are never removed or rewritten, and only become consumed |
| PreKeysRuns.AtMostOnce | identity/app/controllers/key_controller.ts:291-351 | no one-time key, X3DH or Kyber, is consumed for two requests |
| PreKeysRuns.OneBundlePerKey | identity/app/controllers/key_controller.ts:382-419 | two answered requests for one account show the keys of different one-time rows, with different key ids; a shared Kyber key is a last-resort one in both |
| PreKeysRuns.BundleShowsClaims | identity/app/controllers/key_controller.ts:310-380 | the one-time keys in a bundle are, with id, public key and signature, those of the rows its request consumed; another Kyber key is an unconsumed last-resort row |
| PreKeysContent.BundleGenuine | identity/app/controllers/key_controller.ts:233-419 | over every run, each key in a bundle is, with its id, public key and signature, one that some client uploaded in the matching field for the account of the device asked for |
| PreKeysContent.RowsAreUploaded | identity/app/controllers/key_controller.ts:130-192 | over every run, each row is a key of the upload that stored it, for its account, out of the field that the row's flags call for |
| PreKeysContent.UploadedIsStored | identity/app/controllers/key_controller.ts:130-192 | each key in each of the four fields of a successful upload has its row, with id, public key, signature and flags |
| PreKeysRuns.ResponseStays | identity/app/controllers/key_controller.ts:382-419 | what a finished request was answered is not changed by anything that runs later |
| PreKeysRuns.ConsumedIdRejected | identity/database/migrations/002_create_pre_keys.ts:84-88 | an upload offering a key id consumed before is rejected and stores nothing of that phase |
| PreKeysRuns.LongLivedKept | identity/app/controllers/key_controller.ts:255-272 | signed and last-resort rows are never consumed, and a request that ends in 404 consumes nothing |
| PreKeysRuns.Conservation | identity/app/controllers/key_controller.ts:291-351 | in each one-time pool of an account, rows stored = rows available + requests that took one |
| PreKeysRuns.ReportedCount | identity/app/controllers/key_controller.ts:200-211 | availablePreKeys is the number of X3DH one-time rows stored less those consumed, whatever signed or Kyber rows there are |
| PreKeysRuns.ConsumedAccounted | identity/app/controllers/key_controller.ts:291-419 | a consumed row was consumed for one request only, which is still in progress, failed, or was answered with a bundle showing exactly that key |
| PreKeysRuns.DeliveredExact | identity/app/controllers/key_controller.ts:11-14 | a consumed key is held by an answered request if and only if the request that consumed it was answered |
| PreKeysFailures.KeyLost | identity/app/controllers/key_controller.ts:11-14 | after an upload the validator accepts, a run in which a request fails once its claim is committed and nobody is shown the consumed key |
| PreKeysClaims.ClaimsTakeLeast | identity/app/controllers/key_controller.ts:291-351 | while no keys are uploaded and no request fails, the k requests that took a key of a pool took exactly its k least key ids, however they interleaved |
| PreKeysFailures.FailureLeavesGap | identity/app/controllers/key_controller.ts:291-308 | a run with a failure in which the least key is left free and a later one taken |
| PreKeysClaims.ShownIsLeast | identity/app/controllers/key_controller.ts:291-351 | whatever runs beside it, a one-time key a request consumed had the least key id that was neither consumed nor locked at its claim step |
| PreKeysClaims.NullJustified | identity/app/controllers/key_controller.ts:382-419 | a bundle lacks an X3DH or a Kyber key only if at the claim step every one-time row of that pool was consumed or locked |
| PreKeysClaims.FallbackJustified | identity/app/controllers/key_controller.ts:334-380 | a last-resort key is used only if at the request's claim step every one-time Kyber row of the account was consumed or locked |
| PreKeysUploads.UploadLeavesPrefix | identity/app/controllers/key_controller.ts:130-192 | key ids stay unique across all kinds; an upload leaves exactly the rows of a prefix of its phases, all if it succeeded, and those before the first clash if rejected |
| PreKeyPools.TableRefinesPools | identity/app/controllers/key_controller.ts:104-419 | over every sequence of whole requests each account is served exactly from its own pools: least one-time key of each, newest signed key, newest last-resort key only when the Kyber pool is empty, uploads phase by phase |
| PreKeyPools.FetchRefines | identity/app/controllers/key_controller.ts:233-419 | a whole fetch answers from its account's pools, takes what it answers out of them, and touches no other account |
| PreKeyPools.UploadRefines | identity/app/controllers/key_controller.ts:104-212 | a whole upload fills its account's pools up to the first clashing phase, reports the pool size, and touches no other account |
| PreKeyPools.SignedNeverOlder | identity/app/controllers/key_controller.ts:255-263 | the signed key read is the greatest id ever uploaded and never goes back to an older one, whatever runs in between |
| KeyController.KeyController.FetchPreKey | identity/app/controllers/key_controller.ts:233-419 | under any interference the bundle is that of one interleaved request |
| KeyController.KeyController.Claim | identity/app/controllers/key_controller.ts:291-308 | lock and commit of a claim, with others running before and between, record the claimed row |
| KeyController.KeyController.UploadPreKeys | identity/app/controllers/key_controller.ts:104-212 | under any interference the report is that of one interleaved request |
| RateLimitBounds.IncludesExact | relay/app/middleware/rate_limit_middleware.ts:42-46 | a route class is chosen exactly when its text occurs somewhere in the path |
| RateLimitBounds.WindowIs | relay/app/middleware/rate_limit_middleware.ts:76 | the two real divisions floor to one division by 60000 ms |
| RateLimitBounds.RetryAfterExact | relay/app/middleware/rate_limit_middleware.ts:92-97 | Retry-After is in 1..60, and added to the current second gives X-RateLimit-Reset, the first second after the window, exactly when the second clock read is still in the window |
| RateLimitBounds.HeadersAre | relay/app/middleware/rate_limit_middleware.ts:89-95 | Retry-After is 60 less the current second modulo 60, and X-RateLimit-Reset is the start of the minute after the window |
| RateLimitClasses.ArrivalIs | relay/app/middleware/rate_limit_middleware.ts:42-46 | over every run each request has the limit its path calls for: 60 if "/messages/send" occurs in it, else 30 if "/messages/pending" does, else 100 |
| RateLimitClasses.BudgetsHold | relay/app/middleware/rate_limit_middleware.ts:27-46 | while INCRs are prompt, a device has at most 60 sends, 30 pendings and 100 requests in all admitted in any one minute |
| RateLimitClasses.RefusedByPath | relay/app/middleware/rate_limit_middleware.ts:76-103 | and a request is refused if and only if the 60, 30 or 100 of its path were used up, by requests of any kind, when it was counted |
| RateLimitBounds.RunKeepsInv | relay/app/middleware/rate_limit_middleware.ts:76-87 | while every INCR is prompt, no counter restarts and all counts of a window differ |
| RateLimitBounds.WindowBound | relay/app/middleware/rate_limit_middleware.ts:76-103 | per device and window, at most L requests of the classes with limit at most L are admitted |
| RateLimitBounds.IntervalBound | relay/app/middleware/rate_limit_middleware.ts:76-103 | any interval of real time admits at most L * (ceil(length / 60 s) + 1) requests of a class |
| RateLimitBounds.RefusedStaysRefused | relay/app/middleware/rate_limit_middleware.ts:79-103 | once a device is refused in a window, every later request with that limit or a lower one is refused |
| RateLimitRefusals.RefusalEarned | relay/app/middleware/rate_limit_middleware.ts:79-103 | over every run, however late its commands, a request is refused only after at least `limit` others of its device were counted in its window |
| RateLimitRefusals.RefusedExact | relay/app/middleware/rate_limit_middleware.ts:79-103 | while every INCR is prompt, a request is refused if and only if at least `limit` requests of its device, of any class, were counted in its window before it |
| RateLimitRefusals.SendsUsePendings | relay/app/middleware/rate_limit_middleware.ts:16-19 | thirty admitted sends use up the budget of pendings: the first pending of the window is refused |
| RateLimitBounds.LateRestarts | relay/app/middleware/rate_limit_middleware.ts:79-87 | a run in which an INCR delayed by 5001 ms starts a window's counter again |
| RateLimitBounds.SlackExact | relay/app/middleware/rate_limit_middleware.ts:82-87 | no counter ever restarts if and only if every INCR may run at most 5000 ms after its clock read |
| RateLimitSlack.LateExceeds | relay/app/middleware/rate_limit_middleware.ts:79-103 | for any device and path, a run with one INCR delayed by 5001 ms in which a window admits one request more than its limit |
| RateLimitSlack.BoundExact | relay/app/middleware/rate_limit_middleware.ts:79-103 | no window ever admits more than its limit if and only if every INCR may run at most 5000 ms after its clock read |
| RateLimitMiddleware.RateLimitMiddleware.Handle | relay/app/middleware/rate_limit_middleware.ts:54-106 | a request with a device id is one request of an interleaved run and its headers are those of its decision; one without passes uncounted |
| TokenText.JoinSplit | identity/app/middleware/session_auth_middleware.ts:69 | splitting at dots loses nothing and leaves no dot in a part |
| TokenText.SplitJoin | identity/app/middleware/session_auth_middleware.ts:69 | dot-free parts come back from their joined text |
| TokenText.DecimalRoundTrip | identity/app/controllers/auth_controller.ts:328 | a printed second is dot-free digits that read back as the same number |
| TokenText.HexExact | relay/app/middleware/device_auth_middleware.ts:120-124 | a text decodes to given bytes exactly when it starts with their encoding in either letter case and then with no further hex pair |
| TokenText.HexReads | relay/app/middleware/device_auth_middleware.ts:120-124 | a text decodes to given bytes exactly if it spells them in hex digits of either case and spells no further byte |
| Tokens.MintExact | identity/app/controllers/auth_controller.ts:324-336 | minting fails exactly if the secret is empty; else the token is the id, the second in decimal, and in lower-case hex the MAC of "id.second" |
| Tokens.AcceptanceExact | identity/app/middleware/session_auth_middleware.ts:68-103 | a token is accepted with an id exactly when it is three non-empty dot-free parts, that id first, a timestamp in the window, and a text decoding to the MAC of "id.timestamp" |
| Tokens.SignedTextSplitsOnce | identity/app/middleware/session_auth_middleware.ts:90-92 | the text under the MAC reads as one id and one timestamp only |
| Tokens.SessionRoundTrip | identity/app/controllers/auth_controller.ts:324-336 | a session token minted at second t is accepted, as its own id, exactly from t-60 to t+3600 |
| Tokens.DeviceRoundTrip | identity/app/controllers/auth_controller.ts:355-367 | a device token minted at second t is accepted exactly from t-60 to one year after t, and the id taken from it is the minted one |
| Tokens.RoundTripExact | relay/app/middleware/device_auth_middleware.ts:88-128 | minting and verifying agree exactly on the ids that are non-empty and dot-free |
| Tokens.DeviceIdGenuine | relay/app/middleware/device_auth_middleware.ts:136-138 | the id extracted from an accepted token is the one under the MAC |
| BalanceCache.KeyInjective | blockchain/app/controllers/balance_controller.ts:75 | the cache key tells chains apart, and addresses up to letter case |
| BalanceContent.ValidExact | blockchain/app/controllers/balance_controller.ts:64 | an address is "0x" and forty hex digits |
| BalanceContent.AnswerExact | blockchain/app/controllers/balance_controller.ts:58-157 | over every run, an invalid address is answered 400, and a request that asked the provider as the reply says: its result, "0x0" without one, 502 on an error, 503 if unreachable |
| BalanceContent.CachedWasSaid | blockchain/app/controllers/balance_controller.ts:75-86 | over every run, an answer from the cache is what the provider replied, less than 30 s before, to a request for the same chain and, up to letter case, the same address |
| BalanceContent.StoreBounded | blockchain/app/controllers/balance_controller.ts:133-139 | after a reply is stored the cache has at most 10000 entries, unless all are at most 30 s old |
| BalanceCache.CacheRefinesLog | blockchain/app/controllers/balance_controller.ts:75-139 | over every run, requests are answered as if straight from the log of stored replies, whatever is pruned |
| BalanceCache.PruningUnobservable | blockchain/app/controllers/balance_controller.ts:133-170 | pruning at any points, or above any number of entries, changes no answer |
| BalanceCache.CachedAnswerGenuine | blockchain/app/controllers/balance_controller.ts:75-131 | every cached answer is the latest stored non-error reply for the same chain and, up to letter case, the same address, stored less than 30 s before |
| BalanceAsks.AsksExact | blockchain/app/controllers/balance_controller.ts:75-90 | over any run, a request goes to the provider if and only if its address is valid and no reply for its chain and, up to letter case, its address was stored in the last 30 s |
| BalanceAsks.SecondAskExact | blockchain/app/controllers/balance_controller.ts:17-24 | of two lookups for one balance less than 30 s apart, the first of which asked the provider, the second asks again if and only if no reply for it was stored in between |
| BalanceAsks.BothAsk | blockchain/app/controllers/balance_controller.ts:17-24 | a run in which two clients looking up one balance both ask the provider |
| BalanceController.BalanceController.PruneCache | blockchain/app/controllers/balance_controller.ts:163-170 | the loop deletes exactly the entries older than the TTL |
| BalanceController.BalanceController.GetBalance | blockchain/app/controllers/balance_controller.ts:58-157 | the answer is that of one request of an interleaved run |
| RoundRobin.NeverEmpty | blockchain/app/services/chain_provider_service.ts:217-231 | whatever the API keys, every chain keeps its public endpoints, and a keyed one exactly when its key is present and does not end in a slash |
| RoundRobin.FilterExact | blockchain/app/services/chain_provider_service.ts:217-231 | the filter keeps, in order, exactly the endpoints whose name starts with "public" or whose URL does not end in a slash |
| RoundRobin.ProviderNames | blockchain/app/services/chain_provider_service.ts:63-162 | which providers are listed for each chain, in order |
| RoundRobin.KeyedShape | blockchain/app/services/chain_provider_service.ts:63-162 | a keyed endpoint is a URL of its provider that ends in that provider's key |
| RoundRobin.ChainsApart | blockchain/app/services/chain_provider_service.ts:63-162 | no endpoint of one chain has the URL of an endpoint of another, whatever the keys |
| RoundRobin.Balanced | blockchain/app/services/chain_provider_service.ts:182-188 | from any state and over any run, k selections on a chain of n endpoints use each position floor(k/n) or ceil(k/n) times |
| RoundRobin.FullCycle | blockchain/app/services/chain_provider_service.ts:182-188 | n selections in a row on a chain use every position exactly once |
| RoundRobin.ConfiguredDistinct | blockchain/app/services/chain_provider_service.ts:63-162 | no two endpoints of a chain share a URL, whatever the keys |
| RoundRobin.ProvidersShareEvenly | blockchain/app/services/chain_provider_service.ts:54-196 | each provider of a chain is answered floor(k/n) or ceil(k/n) times in any k consecutive selections, whichever instances make them and whatever instances are created and other chains selected meanwhile |
| RoundRobin.AlwaysAnswers | blockchain/app/services/chain_provider_service.ts:175-196 | an instance built from the API keys always answers, with the URL of one of its chain's providers |
| ChainProviderService.ChainProviderService.constructor | blockchain/app/services/chain_provider_service.ts:63-162 | a new instance holds, for every chain, the providers usable with the API keys, and leaves the shared counters alone |
| ChainProviderService.ChainProviderService.GetEndpoint | blockchain/app/services/chain_provider_service.ts:175-196 | answers the endpoint at the shared counter modulo the list length and advances only that chain's counter; an empty list is an error that changes nothing |

## Left out

- HTTP, framework, Redis and Postgres plumbing, `fetch`, pub/sub notifications and logging: only the atomic effect of each command is modelled; blobs and key material are opaque.
- Request validators, `Authorization` header parsing, public paths and attaching the verified id to the request: single-branch steps before the modelled code.
- Cryptography, and the constant-time property of the MAC comparison.
- JavaScript's full `Number` grammar: texts other than decimal digits up to 2^53 are left to an arbitrary function.
- Unicode in tokens: texts are sequences of characters, and the MAC is taken of the text rather than of its UTF-8 bytes.
- Counter overflow past 2^53, and a clock that goes back.
- A claim's statement snapshot taken before its lock: rows committed in between are visible to the modelled claim.
- Accounts are a fixed map; registration, SMS verification, refresh tokens, profiles, discovery and account deletion are not modelled.
- The push service, the WebSocket upgrade, the RPC proxy and the jobs that purge consumed or rotated keys, which have no modelled behaviour here or are not implemented.
- Which endpoint a balance query is sent to is decided by the round robin and does not enter the cache model.
- MessageQueueReuse.EnqueueExact: speaks of index and messages alone; what dequeues in progress make of a reused id is the subject of SafeExact and ReuseExact.
