# Event delivery, key rotation and cache invalidation: a verified model

A Dafny 4.11 model of the messaging backbone of the services: the transactional outbox and
its worker, the publisher's confirms, the consumer's retry and dead-letter machine, the
consumer's shutdown protocol, the JWT key set, and the cache's key scheme. Concurrent parts are
labelled transition systems, and their theorems quantify over every run. Code that works by
changing things step by step is a class or a method, proved against functions that the
theorems are about. `dafny verify dfyconfig.toml` checks everything.

| module | what it is |
|---|---|
| `Shutdown` | `Consume`/`stop`/`cancel`/`drain` against `Close`/`keepDrained`, the blocking dispatcher and the broker |
| `OutboxTable`, `Outbox`, `OutboxWorker` | the outbox statements, the pipeline as a transition system, and the worker's code, each of whose calls is a step of that system |
| `Transactions` | `WithTx` and what nesting does to it |
| `Publisher` | confirmations read in order and never matched to their message |
| `Delivery`, `RetryQueue`, `RetryPolicy`, `Topology`, `Decimal` | copies of a message between queues and channels, the TTL queue, the policy and its headers, where dead letters go |
| `Backoff` | the two `backoffFor` loops and `nextBackoff`, in wrapping int64 arithmetic |
| `KeySet`, `Tokens` | loading, rotating, issuing, verifying |
| `CacheKeys`, `CacheInvalidation` | key injectivity, prefixes, SCAN-and-delete |

## Findings

Where a promise does not hold of the code as it stands, the code is modelled as it is and the
exact condition is proved.

- Confirmations are not matched to messages, and nothing in the publisher keeps two calls
  apart. Every call reads its own answer if and only if the callers publish one at a time and
  none leaves by its deadline (`OwnIffSerializedAndPunctual`). The outbox worker keeps the first
  half, by its loop (`Outbox.InvStep`), and not the second. One publish at a time, each deadline
  exit makes all later ones on that channel read one message further back (`ConfirmationLag`),
  and the outbox can mark an event the broker refused (`LateConfirmationMarksARefusedEvent`). An
  event confirmed on a channel without such exits was accepted (`MarkedMeansAccepted`).
- The comment at pkg/amqp/consumer.go:437-439 says that without the drain in `Close`, serializing
  still deadlocks. With handlers that return it does not: the mutex and drain-before-cancel are
  together necessary and sufficient (`DeadlockFreeIffSafe`). What the drain in `Close` buys is
  that it returns even if a running handler never does (`CloseReturnsWithoutTheHandler`). A
  `Close` called between the confirmed subscription and the moment `Consume` stores the
  deliveries channel finds nothing to drain, and can hang on a running handler
  (`UndrainedCloseNeedsTheHandler`). At a prefetch of one it never does, and at any larger one
  it can (`HangsOnTheHandlerIff`).
- A nested `Repository.WithTx` commits on its own. A call is all-or-nothing exactly when
  nothing that writes is nested in it (`AtomicIffNothingNested`).
- `backoffFor` equals its closed form on every attempt exactly when no value it doubles
  reaches 2^62 below the cap (`BackoffIsCappedIffLossless`); otherwise some attempt is
  negative. `nextBackoff` doubles the cap itself, so it needs both settings below 2^62
  (`StartupIsCappedIff`). An initial backoff above the maximum is used uncapped on the first
  attempt (`TtlsAreCapped`).
- An attempts header holding the largest int32 wraps to the smallest and is retried
  (`DecideCountsUp`).
- `KeySet.Add` overwrites. The active kid keeps naming a signing key exactly when a public
  key is not added under it (`AddKeepsSigningIff`), and tokens survive exactly when the public
  half is the same (`OverwritingRetiresTokensIff`).
- `DeleteByPrefix` passes its prefix to a glob pattern unescaped. It touches exactly the keys
  that begin with the prefix if and only if no service or segment holds `*`, `?`, `[` or `\`
  (`InvalidationIsExactIff`). Otherwise some key is deleted that does not begin with it, as with
  service `?` (`WildcardReachesFurther`), or one that does is missed, as with service `[]`
  (`EmptyClassReachesNothing`).

## Model

| member | source | states |
|---|---|---|
| `Shutdown.InvStep` | pkg/amqp/consumer.go:131-293 | every step of any party keeps: the rpc mutex is held exactly around a reply-waiting call, each pending reply belongs to the one caller waiting for it, a drained message is never settled, every delivery is in one place, at most Prefetch are unacknowledged |
| `Shutdown.RepliesReachTheirRequester` | pkg/amqp/consumer.go:44-51 | in every interleaving at most one caller waits on the reply slot, and a reply at the dispatcher's head is the one its requester waits for |
| `Shutdown.DrainedStaysWithTheBroker` | pkg/amqp/consumer.go:263-293 | in every run whatever a drainer discarded is unacknowledged, never settled, and at most Prefetch in number |
| `Shutdown.NothingIsForgotten` | pkg/amqp/consumer.go:131-293 | in every run of any design: what a handler acknowledged is settled once the broker has read what was written, if the channel is open; once the deliveries channel is closed no delivery is left in the dispatcher |
| `Shutdown.ReturnsAfterItsDrain` | pkg/amqp/consumer.go:230-242 | neither Consume nor Close returns before the drain it started has ended |
| `Shutdown.SomethingMoves` | pkg/amqp/consumer.go:186-293 | in every invariant state with an unfinished stop or Close some goroutine, the dispatcher or the broker can move |
| `Shutdown.MeasureFalls` | pkg/amqp/consumer.go:230-293 | once stop has begun, every step of anybody, the environment included, lowers one measure over unread deliveries, requests, replies, remaining prefetch and caller positions |
| `Shutdown.ShutdownTerminates` | pkg/amqp/consumer.go:230-293 | every run from stop on is no longer than that measure, and where nothing can move Consume has returned and so has any Close |
| `Shutdown.ClosedTerminates` | pkg/amqp/consumer.go:131-170 | from the moment the broker's end is closed, by Close or a dropped connection and with a live context too, every run is bounded and where nothing can move Consume has returned and so has any Close |
| `Shutdown.DroppedTerminates` | pkg/amqp/consumer.go:131-170 | the same after a dropped connection, from any state |
| `Shutdown.DeadlockFreeIffSafe` | pkg/amqp/consumer.go:177-260 | over every reachable state, deadlock freedom holds if and only if replies are awaited under the mutex and stop drains before it cancels; the code as written is deadlock-free |
| `Shutdown.CancelFirstDeadlocks` | pkg/amqp/consumer.go:220-242 | canceling before draining reaches a state where the confirmation sits behind a delivery nobody reads |
| `Shutdown.UnserializedDeadlocks` | pkg/amqp/consumer.go:44-51 | without the mutex a cancel is handed the reply to the close and Close waits for ever |
| `Shutdown.CloseReturnsWithoutTheHandler` | pkg/amqp/consumer.go:440-452 | while a handler runs and Close drains (or the prefetch is one), every run in which Consume makes no step is at most the measure long, and where nobody else can move Close has returned |
| `Shutdown.UndrainedCloseNeedsTheHandler` | pkg/amqp/consumer.go:186-198 | at a prefetch of two or more, a Close that found no stored channel reaches a state where the handler's return is the only step |
| `Shutdown.HangsOnTheHandlerIff` | pkg/amqp/consumer.go:186-198 | a reachable state in which shutdown hangs on a handler exists if and only if the prefetch is at least two |
| `OutboxTable.DueFromIsExact` | services/identity/internal/db/sqlc/outbox.sql.go:14-21 | the claim's candidates are exactly the pending, due, unlocked rows, in ascending id order |
| `OutboxTable.Claims` | services/identity/internal/db/sqlc/outbox.sql.go:14-56 | a claim returns at most `limit` events, due, ascending, each with the row's attempts |
| `OutboxTable.ClaimsAreTheOldestDue` | services/identity/internal/db/sqlc/outbox.sql.go:14-21 | a due unlocked row is claimed, or the batch is full of older ones |
| `OutboxTable.MarkedRow` | services/identity/internal/db/sqlc/outbox.sql.go:125-135 | a mark records the clock's time, ends pending, and changes nothing else |
| `OutboxTable.RescheduledRow` | services/identity/internal/db/sqlc/outbox.sql.go:137-155 | a reschedule counts one failure with its reason and makes the event due from exactly its time on |
| `OutboxTable.PrunedIffPublishedBefore` | services/identity/internal/db/sqlc/outbox.sql.go:72-85 | a prune removes exactly the rows published before the cut and leaves the others as they are |
| `OutboxTable.DueAfterMark` | services/identity/internal/db/sqlc/outbox.sql.go:125-135 | marking the oldest due row leaves the rest due, in the same order |
| `OutboxTable.DueLater` | services/identity/internal/db/sqlc/outbox.sql.go:14-21 | when everything pending is due, time passing changes neither the set nor the order |
| `Outbox.InvStep` | pkg/outbox/worker.go:137-203 | every step of any transaction, worker, store, broker or crash keeps the ledger, table and channels consistent; in particular each worker waits for its own last message and nothing else, so it publishes one at a time |
| `Outbox.NoEventIsLost` | pkg/outbox/worker.go:137-203 | in every run with any number of workers and overlapping claims: each committed event is pending or was passed to a Publish that returned nil; marked rows are of the latter kind; only events of committed transactions were ever written to the broker, so none of an open or rolled-back one; a state change is present exactly when its event was committed; the attempts column equals the stored failures |
| `Outbox.RolledBackIsNeverPublished` | pkg/database/tx.go:30-65 | what a transaction recorded before it was rolled back is never committed, stored or written to the broker, over every later run |
| `Outbox.RowsLeaveOnlyByPruning` | services/identity/internal/db/sqlc/outbox.sql.go:72-85 | a row leaves the table if and only if a prune comes after it was marked before the cut, and then it was reported published |
| `Outbox.RecordedIsNew` | services/identity/internal/db/sqlc/outbox.sql.go:87-123 | recording adds one new pending row to the transaction, due at once, for the change just made |
| `Outbox.DroppedSendsNoMore` | pkg/amqp/publisher.go:115-120 | once its channel dropped, a worker writes nothing more on it over any run |
| `Outbox.RestartIsClean` | pkg/outbox/worker.go:77-85 | a worker that died starts again idle on a fresh channel with the database untouched |
| `Outbox.SettledStep` | services/identity/internal/db/sqlc/outbox.sql.go:125-135 | no step makes a settled event pending again |
| `Outbox.PublishedIsForever` | services/identity/internal/db/sqlc/outbox.sql.go:125-135 | published_at never reverts, over whole runs and across pruning |
| `Outbox.TakenMeansAccepted` | pkg/amqp/publisher.go:115-131 | on a channel no publish has left by its deadline, a positive confirmation read for an event means the broker accepted that event, whatever other channels did |
| `Outbox.MarkedMeansAccepted` | pkg/outbox/worker.go:163-187 | over every run, an event for which no confirmation was read on a channel with a deadline exit behind it is pending or was positively confirmed itself |
| `Outbox.PunctualIsNeverDoubtful` | pkg/outbox/worker.go:163-187 | in a run without deadline exits that holds of every event |
| `Outbox.LateConfirmationMarksARefusedEvent` | pkg/amqp/publisher.go:115-131 | with one deadline exit a reachable state has a marked event that the broker refused |
| `Outbox.BackoffIsRespected` | pkg/outbox/worker.go:190-222 | with one worker, an event whose k-th failure was stored is not written again before min(initial·2^(k−1), maximum) has passed |
| `Outbox.SoloRun` | pkg/outbox/worker.go:137-203 | over every run of one worker, what it has claimed stays as claimed and each failed row is held back by exactly its own backoff |
| `OutboxWorker.Worker.Perform` | pkg/outbox/worker.go:137-203 | every call the worker's code makes is an enabled step of the pipeline, appended to its trace |
| `OutboxWorker.Worker.StaysSafe` | pkg/outbox/worker.go:91-203 | a worker started in a consistent world keeps it consistent, whatever it meets |
| `OutboxWorker.Worker.Publish` | pkg/amqp/publisher.go:75-131 | the exact condition of success: the message could be written, the deadline did not come first, and the next answer on the channel is positive; the message is sent exactly if it could be written |
| `OutboxWorker.Worker.PublishOne` | pkg/outbox/worker.go:163-203 | exactly what becomes of the table: marked at the clock's time after a success, rescheduled with reason and backoff after a failure, each if the store call takes effect, and nothing else |
| `OutboxWorker.Worker.PublishEach` | pkg/outbox/worker.go:143-155 | every claimed event is tried unless the context ends; the count returned is the events marked; without faults they are sent once each, in order, and marked |
| `OutboxWorker.Worker.ProcessBatch` | pkg/outbox/worker.go:137-156 | fails exactly on a failed claim or a done context; a failed claim changes nothing; otherwise min(backlog, batch size) of the oldest due events are tried, and without faults published and marked, in order |
| `OutboxWorker.Worker.Run` | pkg/outbox/worker.go:91-130 | returns only once the context is done; sleeps a poll interval after exactly the empty rounds, and time passes accordingly; the rounds account for every event marked; without faults a backlog of n is sent exactly once, ascending, the i-th round taking the i-th batch and being non-empty exactly for the first ceil(n/batchSize); what was sent is marked, what was not is the remaining backlog, no other row changed; a context that lasts for n + ceil(n/batchSize) looks is enough for all of it |
| `OutboxWorker.BatchNonEmpty` | pkg/outbox/worker.go:91-130 | the i-th batch of n is non-empty exactly when i < ceil(n/b) |
| `OutboxWorker.ProgressStep` | pkg/outbox/worker.go:143-187 | marking the next event moves the backlog on by exactly one |
| `Transactions.Database.WithTx` | pkg/database/tx.go:30-65 | on nil, error or panic no transaction stays open; nil exactly when the function returned nil, every statement ran and the commit was acknowledged; nil means everything it wrote is committed; the committed state grows by exactly the call's effects |
| `Transactions.Database.RunBody` | pkg/database/tx.go:40-58 | the function's own writes stay in its transaction while nested calls commit on their own |
| `Transactions.FlatKeepsPaired` | services/identity/internal/repository/repository.go:41-55 | an un-nested call commits all it wrote or nothing, so a state change and its outbox row are both present or both absent |
| `Transactions.AtomicIffNothingNested` | services/identity/internal/repository/repository.go:41-55 | a call that writes is all-or-nothing under every failure if and only if no nested call writes |
| `Transactions.UndisturbedLandsEverything` | pkg/database/tx.go:23-65 | with every failure removed a call commits all it and its nested calls wrote |
| `Publisher.OwnIffSerializedAndPunctual` | pkg/amqp/publisher.go:25-131 | every call reads the answer to its own message, in every history, if and only if its callers publish one at a time and none leaves by its deadline |
| `Publisher.ConfirmationLag` | pkg/amqp/publisher.go:75-131 | over every history of one publish at a time, the confirmation a waiting publish would take lags its own message by exactly the number of earlier deadline exits; it is its own if and only if there were none |
| `Publisher.ReplayValid` | pkg/amqp/publisher.go:75-131 | over every history, with any number of calls at once, each publish took one confirmation, left by its deadline, found the channel closed or is waiting |
| `Publisher.RefusedYetReported` | pkg/amqp/publisher.go:115-131 | one publish at a time, one late confirmation: a call is about to return nil for a message the broker refused |
| `Publisher.OverlapMisreports` | pkg/amqp/publisher.go:115-131 | two publishes at once, none late: the same |
| `Publisher.Publisher.PublishTo` | pkg/amqp/publisher.go:75-112 | whoever else publishes meanwhile: the message sent carries the trace header; it fails to write exactly on a closed channel or a failing write, and then changes nothing; otherwise the outcome is decided by what is on the channel when the wait ends; alone, nil means a positive answer to the message `exits` publishes earlier |
| `Publisher.StampedKeeps` | pkg/amqp/publisher.go:75-104 | the caller's key, payload and headers go out as they are, with the trace id if there is one |
| `Publisher.Publisher.WaitForConfirm` | pkg/amqp/publisher.go:115-131 | each outcome with the channel it found and the one it leaves |
| `Delivery.InvStep` | pkg/amqp/consumer.go:296-429 | every step keeps: on each channel a copy precedes its acknowledgement, no frame answers an unhandled or finished delivery, every count can still be incremented |
| `Delivery.AnswerShape` | pkg/amqp/consumer.go:296-407 | what is written for a delivery in each case, the nack fallbacks included |
| `Delivery.MessageIsNeverLost` | pkg/amqp/consumer.go:296-429 | for every prefix of frames processed before any drops: the message is in the main queue, unacknowledged, in the retry queue or in the DLQ, or was acknowledged after handler success |
| `Delivery.StandingStep` | pkg/amqp/topology.go:62-79 | no step lowers the number of copies standing for the message, except the acknowledgement of a success, by one |
| `Delivery.PotentialSteady` | pkg/amqp/outcome.go:52-70 | without a drop, each handler run is paid for by the remaining attempts of the live copies |
| `Delivery.PotentialDrop` | pkg/amqp/consumer.go:375-407 | a drop adds at most MaxAttempts for each delivery it puts back |
| `Delivery.RequeuedIsWhatWasHeld` | pkg/amqp/consumer.go:375-407 | a drop puts back every delivery not settled, once, with the header it came with |
| `Delivery.HandlerRunsAreBounded` | pkg/amqp/outcome.go:52-70 | in every run the handler runs at most MaxAttempts × (1 + redeliveries caused by drops) times |
| `Delivery.AlwaysFailingEndsInTheDlq` | pkg/amqp/consumer.go:296-407 | without faults and with a handler that always fails, on any number of channels: runs are bounded, and at rest the handler ran exactly MaxAttempts times and exactly one copy is left, in the DLQ |
| `RetryQueue.InvStep` | pkg/amqp/consumer.go:94-115 | under head-only expiry each message leaves exactly when the slowest of itself and those before it is over |
| `RetryQueue.DepartureBounds` | pkg/amqp/consumer.go:94-115 | that moment is between its own TTL and the cap, for any mix of TTLs ahead of it |
| `RetryQueue.EveryWaitIsWithinBounds` | pkg/amqp/consumer.go:342-373 | over every run each message that left waited at least its own TTL and at most the cap, and each still queued has not reached its departure, which is within the cap |
| `RetryQueue.RetriesWaitAtMostMaxBackoff` | pkg/amqp/consumer.go:342-373 | in nanoseconds, with InitialBackoff at most MaxBackoff: a message retried after its k-th attempt waits longer than min(initial·2^(k−1), maximum) less one millisecond and at most MaxBackoff, for any mix of attempts queued before it |
| `RetryQueue.TtlsAreCapped` | pkg/amqp/retry.go:50-66 | every delay the policy asks for is within the maximum if and only if the initial one is, in milliseconds too |
| `RetryQueue.ExpirationReadsBack` | pkg/amqp/consumer.go:350-360 | the expiration written for a delay reads back as its whole milliseconds, less than one short |
| `RetryPolicy.EveryWidthReadsTheSame` | pkg/amqp/retry.go:16-43 | an int32 count reads back the same from every integer width, a float and a decimal string |
| `RetryPolicy.UnreadableCountsAsNone` | pkg/amqp/retry.go:16-43 | no header, an unreadable text or another kind of value read 0, and a fraction is cut off |
| `RetryPolicy.DecideCountsUp` | pkg/amqp/outcome.go:52-70 | the attempt just made counts, a failure is final exactly from the MaxAttempts-th on, the delay is the capped one; false of exactly one count, the largest int32 |
| `RetryPolicy.BuildRetryHeaders` | pkg/amqp/retry.go:69-83 | the table filled in place equals the specification the chain lemma is about |
| `RetryPolicy.Truncate` | pkg/amqp/retry.go:90-96 | at most n+3 bytes, unchanged when short, the first n and an ellipsis when long |
| `RetryPolicy.ChainPreserves` | pkg/amqp/retry.go:16-96 | along any retry chain the body and all producer headers are unchanged, the first-failure stamp is written once, the last error is the last reason within 515 bytes, the count read back is the failures on the chain |
| `RetryPolicy.FreshMessageCountsFromOne` | pkg/amqp/retry.go:16-83 | the k-th failure of a message published without the header reads k |
| `Decimal.ParseOfItoa` | pkg/amqp/retry.go:33-39 | parsing what was formatted gives the number back, for every int32 |
| `Decimal.PlusReads` | pkg/amqp/retry.go:33-39 | an explicit plus reads as no sign, exactly within int32 |
| `Decimal.MinusReads` | pkg/amqp/retry.go:33-39 | a minus negates, exactly within int32 |
| `Decimal.ItoaInjective` | pkg/cache/key.go:41-43 | two numbers never share a decimal text |
| `Topology.Channel.Declare` | pkg/amqp/topology.go:44-88 | the main queue dead-letters to the DLQ, the retry queue to the main queue, the DLQ nowhere; all routing keys bound; existing queues untouched; fails exactly on an incompatible existing queue; after a success everything is ready, and declaring when everything is ready succeeds and changes nothing, so any replica can declare again |
| `Topology.Channel.QueueDeclare` | pkg/amqp/consumer.go:100-115 | declaring an equal queue is a no-op, a different one is refused |
| `Backoff.BackoffFor` | pkg/amqp/retry.go:50-66 | the loop computes the wrapping specification, which is min(initial·2^(attempt−1), maximum) for lossless settings |
| `Backoff.LosslessIsCapped` | pkg/outbox/worker.go:206-222 | for lossless settings every attempt gets the closed form, with no overflow on the way |
| `Backoff.SmallMaximumIsLossless` | pkg/outbox/worker.go:206-222 | every initial ≤ maximum < 2^62 is lossless |
| `Backoff.LossyAttempt` | pkg/amqp/retry.go:50-66 | for any other settings some attempt comes back negative |
| `Backoff.BackoffIsCappedIffLossless` | pkg/amqp/retry.go:45-66 | the closed form holds on every attempt if and only if the settings are lossless |
| `Backoff.CappedMonotone` | pkg/amqp/retry.go:45-66 | a later attempt never waits less, and never more than the maximum |
| `Backoff.IteratedNextIsCapped` | pkg/database/postgres.go:129-136 | the startup backoff, stepped one wait at a time, is the same sequence |
| `Backoff.StartupIsCappedIff` | pkg/database/postgres.go:129-136 | it is so on every wait after the first if and only if both settings are below 2^62 |
| `Backoff.Connect` | pkg/database/postgres.go:50-88 | each outcome with exactly the attempts that failed before it and the waits made, none after the last failure |
| `Backoff.WaitsAt` | pkg/database/postgres.go:50-88 | the i-th wait is the documented one |
| `KeySet.Set.Add` | pkg/jwt/keyset.go:65-84 | refuses a wrong key size and changes nothing; otherwise stores, overwriting, and activates the first signing key |
| `KeySet.AddedKeepsTheRest` | pkg/jwt/keyset.go:65-84 | the key is stored with both halves under its name, every other key and an existing active kid stay, the first signing key becomes active |
| `KeySet.Set.SetActive` | pkg/jwt/keyset.go:87-103 | both errors and success, the whole new state, and that an active kid goes on naming a signing key |
| `KeySet.Set.Active` | pkg/jwt/keyset.go:106-115 | fails exactly when no kid is active; otherwise returns the stored key of that kid, which can sign |
| `KeySet.AddKeepsSigningIff` | pkg/jwt/keyset.go:65-84 | after Add the active kid names a signing key exactly when it was not overwritten by a public-only key |
| `KeySet.Set.AddPublicKeys` | pkg/jwt/jwks.go:122-149 | terminates on any text; absorbs exactly the blocks before the first that does not parse, and fails exactly then |
| `KeySet.NextIsUsable` | pkg/jwt/pem.go:10-29 | a key read is named by its own kid, public-only, and what remains is shorter |
| `KeySet.NextReadsOneBlock` | pkg/jwt/pem.go:10-29 | reads exactly the first block of the text and leaves the others |
| `KeySet.TrimIsExact` | pkg/jwt/pem.go:11 | trimming removes the space at both ends, all of it and nothing else |
| `KeySet.EveryBlockIsRead` | pkg/jwt/jwks.go:122-149 | of a text that decodes block after block, every block's key is read, in order |
| `KeySet.EveryBlockIsLoaded` | pkg/jwt/jwks.go:74-149 | the key of every one of those blocks is in the loaded set |
| `KeySet.AbsorbedAt` | pkg/jwt/jwks.go:122-149 | what is stored under each kid afterwards, with private keys kept |
| `KeySet.AbsorbedInAnyOrder` | pkg/jwt/jwks.go:122-149 | two lists holding the same keys, in any order and with duplicates, give the same set |
| `KeySet.AbsorbedSigners` | pkg/jwt/jwks.go:122-149 | absorbing neither adds nor removes nor alters a signing key, nor changes the active one |
| `KeySet.LoadKeySet` | pkg/jwt/jwks.go:74-104 | the exact failure condition; otherwise the private key is active, can sign, no other key can, and every public key of the text is there |
| `KeySet.LoadIgnoresOrder` | pkg/jwt/jwks.go:68-149 | any two concatenations holding the same keys load the same set |
| `KeySet.NormalizeAcceptsBothForms` | pkg/jwt/jwks.go:106-118 | a PEM arrives the same with real newlines and with escaped ones |
| `Tokens.InvRotation` | pkg/jwt/keyset.go:65-128 | over every rotation the active kid names a stored signing key, private halves match public ones, and every issued token is covered by a stored key |
| `Tokens.RotationTakesEffect` | pkg/jwt/keyset.go:65-115 | after adding and activating a signing key the next token names it and is signed with it |
| `Tokens.EveryIssuedTokenVerifies` | pkg/jwt/verifier.go:44-117 | every token ever issued verifies until exp plus skew for a matching issuer and overlapping audience, and yields ErrExpired from then on (sections 4.1.3 to 4.1.5 of RFC 7519) |
| `Tokens.MintedAsAsked` | pkg/jwt/issuer.go:69-106 | over every rotation each issued token answers one of the requests made: its user, session, version, scope, audience or else the configured one, issuer, id and dates |
| `Tokens.VerifiedNamesItsRequest` | pkg/jwt/verifier.go:44-66 | what a verifier returns for an issued token are the claims of the request behind it |
| `Tokens.VerifyAcceptsIff` | pkg/jwt/verifier.go:44-103 | acceptance if and only if algorithm, kid, signature, dates with skew, issuer and audience all fit |
| `Tokens.FreshTokenIsNotEarly` | pkg/jwt/issuer.go:69-106 | a token is valid from the moment of issue, and exp is less than a second short of now plus TTL |
| `Tokens.OnlyMintedTokensVerify` | pkg/jwt/verifier.go:44-85 | over every history of rotations, minting and other parties presenting anything they can sign or copy: a presented token that verifies under a key only the service holds is, whole, one the service minted |
| `Tokens.AccountableTraffic` | pkg/jwt/issuer.go:69-106 | every presented token carries a foreign signature or one off an issued token, and every issued signature is over its own token's content |
| `Tokens.CheckAudience` | pkg/jwt/verifier.go:91-103 | accepts exactly when no audience is configured or one configured is among the token's |
| `Tokens.LoadedRingIsSound` | pkg/jwt/jwks.go:74-104 | a key set loaded from configuration is a valid start for any rotation |
| `Tokens.AbsorbedKeepsSound` | pkg/jwt/jwks.go:122-149 | absorbing public keys keeps the ring sound |
| `Tokens.OverwritingRetiresTokensIff` | pkg/jwt/keyset.go:65-84 | tokens under an overwritten kid go on verifying exactly when the public half is the same |
| `CacheKeys.JoinInjective` | pkg/cache/key.go:32-38 | separator-free lists with the same joined text are equal |
| `CacheKeys.KeyInjective` | pkg/cache/key.go:32-38 | distinct services or segments never share a key |
| `CacheKeys.KeyInOrder` | pkg/cache/key.go:32-49 | a key is its service and segments in order, each after a colon |
| `CacheKeys.VersionedInjective` | pkg/cache/key.go:41-43 | nor do distinct entities, ids or versions |
| `CacheKeys.VersionedIsCovered` | pkg/cache/key.go:41-49 | the prefixes of its entity and of its id both begin a versioned key, which ends in its version |
| `CacheKeys.JoinSplits` | pkg/cache/key.go:32-49 | a shorter list's key and separator begin the longer list's key |
| `CacheKeys.PrefixCoversIff` | pkg/cache/key.go:45-49 | a prefix covers a key if and only if its service and segments are a strictly shorter list prefix of the key's |
| `CacheInvalidation.PatternIsPrefixIff` | pkg/cache/redis.go:165-189 | the pattern matches exactly the keys that begin with the prefix if and only if the prefix holds no glob character |
| `CacheInvalidation.InvalidationIsExactIff` | pkg/cache/redis.go:165-189 | the same for a service and its segments: exact if and only if none of them holds a glob character |
| `CacheInvalidation.Misfit` | pkg/cache/redis.go:165-189 | for any other prefix, a key that is matched and does not begin with it, or begins with it and is missed |
| `CacheInvalidation.ShortMatch` | pkg/cache/redis.go:165-189 | a pattern ending in a star that matches anything matches something shorter than itself |
| `CacheInvalidation.GlobIsPrefix` | pkg/cache/redis.go:165-189 | for a glob-free prefix the pattern matches exactly the keys that begin with it |
| `CacheInvalidation.WildcardReachesFurther` | pkg/cache/redis.go:165-189 | one way to fail: the service name `?` reaches another service's key |
| `CacheInvalidation.EmptyClassReachesNothing` | pkg/cache/redis.go:165-189 | the other way: the service name `[]` matches no key at all, its own included |
| `CacheInvalidation.Redis.DeleteByPrefix` | pkg/cache/redis.go:165-189 | the empty prefix is refused and changes nothing; otherwise it goes on exactly until the iteration ends or the first failing scan or failing deletion of a non-empty batch, and the result says which; on nil every key the pattern matches and present throughout is gone; on any outcome only matched keys differ from what others made of them; for a glob-free prefix matched means beginning with it |
| `CacheInvalidation.OtherServicesAreUntouched` | pkg/cache/redis.go:165-189 | invalidating one service never matches a key of another |

## Left out

- Foreign code: RabbitMQ, Postgres, Redis and their client libraries appear only through the behaviour the source's comments and standards ascribe to them.
- Ed25519, SHA-256, PEM and X.509 are functions with laws (`KeySet.Lawful`); a signature is the pair of signer and content; the kid is injective on the keys given.
- Registration: `Shutdown` starts once the subscription is confirmed, since that call waits for its reply outside the mutex.
- The 30 second drain timer does not fire and handlers return; a broker that never answers is a dropped connection.
- The field guard `mu` in the consumer is one step, as nothing blocks inside it; one `Close` call is modelled.
- Each outbox worker has a publisher of its own, as the services wire it. The size of the confirmation buffer is not modelled.
- Routing after acceptance: a confirmation means the broker took the message. Topic matching and `x-death` headers are not part of the model.
- Handler context, trace propagation, logging, metrics and configuration loading.
- Claim order between concurrent statements is not modelled beyond an arbitrary set of locked rows per claim.
- A float attempts header outside int32 converts as Go's implementation chooses; that conversion is a parameter.
- Delivery.HandlerRunsAreBounded: incoming attempts headers are in 0..2^31−2, and so for the other results of that module; outside it `DecideCountsUp` says what happens.
- Header text is a sequence of characters standing for bytes; truncation in the middle of a UTF-8 sequence is not distinguished.
- Tokens without an exp claim, and malformed token text, are not represented; the issuer always sets exp.
- `Keys`, `JWKS` and its HTTP handler, key generation and PEM encoding: one-branch members.
- `Get`, `Set` and `Delete` of the cache, `pkg/health`, `pkg/bootstrap`, servers, gateway and the lint tools: easy members. The four other services carry the same repository and SQL code as identity.
- OutboxWorker.Worker.Run: the fault-free clause is about one worker with no new inserts during the run; runs with faults and inserts are covered by `Outbox.NoEventIsLost`.
