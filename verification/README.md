# Verification of the society operations bot

The repository is a chat bot (WhatsApp and Telegram) for housing societies: it takes webhook deliveries,
keeps a tamper-evident audit log, runs food counters at events, sends announcements, and keeps an event's
expenses, sponsor contributions and refunds behind a workflow engine. This project models its seven small
stateful components and proves what they keep over every run.

Every component that the source changes step by step is a class whose methods follow the source's
branches and loops (`WebhookRuntime`, `RateLimit`, `AuditChain`, `FoodDesk`, `DeliveryWorker`, `Ledger`,
`ReportPaging`). Each method is proved equal to a transition function over immutable tables
(`WebhookRetry`, `FoodModel`, `DeliveryModel`, `LedgerModel`); the theorems are about all runs of those
functions.

| component | files | main theorems |
|---|---|---|
| webhook retry runtime | `WebhookRetry`, `WebhookRetryProperties`, `WebhookVerdicts`, `WebhookDedupe`, `WebhookRuntime` | `NoMessageIsLost`, `PassesAreBounded`, `DrainIsExactInEveryRun`, `ThreeLateDrainsSettleEverything`, `RedeliveryIsInert`, `SkipsDropNothing`, `SkippedThenHandledIff`, `LateDrainHandlesSkippedIff`, `StatusIff`, `FailedYetQueuedIff`, `QueuedEnvelopesWait` |
| sliding-window limiter | `RateLimit` | `AdmissionBound`, `Limiter.IncrementSlidingWindow`, `BucketsCoincideIff` |
| audit hash chain | `AuditChain`, `AuditChainProperties`, `AuditPayload`, `AuditPayloadProperties`, `AuditRedaction` | `HeadDeterminesHistory`, `HeadDeterminesPayloads`, `AppendKeepsChainIff`, `BatchesKeepChains`, `PrintInjective`, `SanitizeCleans`, `StringIsHiddenIff`, `AtSignSurvivesIff`, `DigitsSurviveIff` |
| food tokens | `FoodModel`, `FoodDesk`, `FoodGeneration`, `FoodCodes`, `FoodAnswers`, `FoodEntitlement`, `FoodRuns`, `FoodCounter`, `FoodLockout`, `FoodSummary`, `CounterRace` | `GenerationIsExact`, `GenerationSucceeds`, `GeneratedOnce`, `FirstRefusals`, `TokenIsHandedOut`, `EntitlementBound`, `OverdrawInRunsIff`, `EntitledFlatRefusedIff`, `OverriddenLookupInRunsIff`, `CounterOpenIff`, `FailedGuessBound`, `DashboardAgreesWithFlats`, `ServeOnce` |
| announcement deliveries | `DeliveryModel`, `DeliveryProperties`, `DeliveryAnswers`, `DeliveryWorker` | `DeliveryInvariant`, `BusyRunsAreBounded`, `EveryRowIsFinished`, `FateFollowsAnswers`, `AcceptedIsSent` |
| event ledger | `LedgerModel`, `LedgerProperties`, `Ledger` | `OverridesAreAccounted`, `OverridesNameTheirStep`, `OverridesAreAttested`, `ExpenseWrittenIff`, `SponsorLedger`, `RefundOverpaysIff`, `PaidWithinAmount`, `CodeResolvesBack` |
| report paging, request codes | `ReportPaging`, `RequestCodes`, `Numerals` | `PressesShowEverything`, `PagingCoversEverything`, `SuffixValue`, `CodesCollideIff` |

`Options` and `Text` hold the optional values and the ASCII string methods shared by all of them.

## Assumptions

- The database, Redis and the provider clients are up. Where the source fails open on an unavailable
  store, that branch is not modelled.
- Calls are taken one at a time, except in `CounterRace`, where the read, the check and the conditional
  update of any number of counters interleave in every way.
- Clock readings, outcomes of message handling, provider answers and random draws are arbitrary functions
  of a step counter, or arguments of the operation. A theorem that needs a clock that never goes back says
  so (`Monotone`, `Timely`, `Chronological`). Times are whole microseconds, and one call reads the clock
  once, except where the source reads it again after sending (`DeliveryModel`) or per message
  (`WebhookRetry`). The database's time stamps and the process's clock agree.
- SHA-256 is an arbitrary function. What is needed of it is a hypothesis of the theorem that needs it: its
  output is 64 hexadecimal characters, and it has no collision among the texts that were actually hashed in
  the two chains compared.
- The heap is the sequence in which its entries would be popped. Its tuples hold the payload between the
  envelope and the attempt; two entries of one envelope have equal payloads, so the attempt decides.

## What the proofs found

- **Chains can fork.** The row to chain to is the newest by `created_at`, which is the start of the
  inserting transaction and is shared by all rows of a batch (app/db/models.py:164). A batch with two
  events of one channel therefore leaves a tie, and the next batch may chain to the wrong row.
  `AppendKeepsChainIff` gives the exact condition (the channel's newest time stamp is not shared),
  `TwoEventsInABatchTie` the way it fails, `SparseBatchesKeepChains` a way of calling it that never does.
- **The dedupe guards the first pass only.** A retry takes the whole envelope and skips the check. In every
  run a message that was skipped as a duplicate has been handled after all exactly when its envelope has
  been passed over at least twice (`SkippedThenHandledIff`), and the next late drain handles it exactly when
  some message of its envelope was bound to fail recoverably (`LateDrainHandlesSkippedIff`);
  `SkippedThenHandledRun` is a run in which it happens. A message that was not skipped is handled by every
  pass, whether or not it had completed (`HandledOncePerPass`). No skip drops a message: another one with its
  key was recorded before it and is settled or queued (`SkipsDropNothing`).
- **Retries multiply.** Each failing message puts the whole envelope back, so one delivery of n messages can
  cause 1 + n + n^2 + n^3 passes, and `PassesAreBounded` shows that the bound is met. No caller of either
  drain function exists under `app/` or `scripts/`.
- **"failed" does not mean finished.** A pass can leave its envelope on file as failed and still queued;
  `FailedYetQueuedIff` and its versions for deliveries and retries say exactly when, from the messages, the
  claimed keys and the outcomes to come, and `FailedYetQueuedRun` is a run with two messages. The other way
  round is sound: `QueuedEnvelopesWait`.
- **The two channels differ** exactly on exceptions that are a ValueError or TypeError and a transport failure
  as well, such as a JSON decoding error of the HTTP library: WhatsApp dead-letters them, Telegram retries
  (`ChannelsDifferIff`, `ChannelsPartWays`). The retry branch of WhatsApp's last handler
  (app/api/whatsapp/webhook.py:644-651) is dead: `CatchAllNeverRetries`.
- **Entitlement across events.** Serves without a token are counted per flat over all events
  (app/modules/events/food_collection_service.py:702-711). A flat with entitlement left is refused exactly
  when its fallbacks at other events make up for what is left (`EntitledFlatRefusedIff`); the per-flat view
  and the dashboard of an event are right exactly when there are none (`FlatViewExactIff`,
  `DashboardExactIff`). `ServedAtTheOtherEvent` is a run with two events.
- **Entitlement within an event.** The bound on plates holds in careful runs (`EntitlementBound`);
  `GenerationKeepsBudgetIff`, `BookingKeepsBudgetIff` and `OverdrawIff` say exactly which generations,
  bookings and states break it. `GeneratedAfterFallback` is a run that hands out two plates for one booked:
  the flat falls back before its token is generated, and then has the token as well.
- **Overridden lookups.** A lookup by flat does not hand its override on to the token check. An overridden
  lookup is answered "not permitted" exactly when the counter is open and a token of the flat waits
  (`OverriddenLookupInRunsIff`); `OverriddenLookupFails` and `OverriddenLookupServes` are runs of both kinds.
- **Race losers.** A counter that loses at the update is told "already served via" the copy it had read,
  which names no method; one that loses at the check is told the right one (`Truthful` in `CounterRace`).
- **Negative refunds.** The refund service accepts them, and only the net total is held against the amount. A
  granted refund takes the money paid out above the contribution exactly when it is more than what is left
  of the contribution and of the money taken back (`RefundOverpaysIff`); without a negative refund on file
  that never happens (`PaidWithinAmount`). `OverpaidRun` pays 150 out of 100.
- **Redaction stops at keys and numbers.** String values are redacted, keys of objects and numbers are not: the
  canonical text of a sanitized payload shows an '@' exactly when a key that survives holds one
  (`AtSignSurvivesIff`), and six digits in a row exactly when an integer from 100000 on, a float, a surviving
  key, or the `\u` escapes within a kept string do (`DigitsSurviveIff`); kept printable ASCII strings never do
  (`PrintableShowsItsRuns`). `AddressAsKey` and `NumberAsKeyOrValue` are payloads that sanitizing leaves alone.
- A request code's suffix has the requested length exactly when that length is at least 1: `SuffixLengthIff`.

## Model

| member | source | states |
|---|---|---|
| WebhookRetryProperties.NoMessageIsLost | app/api/whatsapp/webhook.py:489-697 | In every run of deliveries and drains, every message of every delivered envelope has been recorded, each message that passed its dedupe check is completed, dead-lettered, or in an envelope queued for attempt 1 to 3; with an empty queue, all of them are settled |
| WebhookRetryProperties.QueuedEnvelopesWait | app/channels/core/webhook_runtime.py:118-140 | In every run an envelope on file as "queued" has an entry in the retry queue |
| WebhookVerdicts.VerdictsAre | app/api/whatsapp/webhook.py:513-526 | A pass records of each message the verdict that follows from the messages, the claimed keys and the outcomes to come: a skip exactly when its key is taken or occurs earlier in the envelope |
| WebhookVerdicts.VerdictFollowsOutcome | app/api/whatsapp/webhook.py:571-651 | A handled message completes exactly when its handling raises nothing, and is rescheduled exactly on a transport failure before the fourth attempt that WhatsApp's first handler does not take for a validation error |
| WebhookVerdicts.StatusIff | app/api/whatsapp/webhook.py:692-697 | Any pass leaves its envelope ignored exactly without messages, failed exactly when a message is bound to be dead-lettered, queued exactly when one is bound to be rescheduled and none dead-lettered, processed exactly when there are messages and neither |
| WebhookVerdicts.ProcessedYetQueuedIff | app/api/whatsapp/webhook.py:692-697 | A pass leaves its envelope processed and all the same queued exactly when every message completes or is skipped and an older entry of the envelope waits |
| WebhookVerdicts.DeliveredProcessedIsDone | app/api/whatsapp/webhook.py:759-763 | A just delivered envelope on file as processed is not queued |
| WebhookVerdicts.FailedYetQueuedIff | app/api/whatsapp/webhook.py:692-697 | Any pass leaves its envelope on file as failed while queued exactly when one message is bound to be dead-lettered and another to be rescheduled or a further entry of the envelope waits |
| WebhookVerdicts.RetriedFailedYetQueuedIff | app/api/whatsapp/webhook.py:441-446 | For a retry: exactly when some outcome within the pass is dead-lettered, and some is rescheduled or another entry waits |
| WebhookVerdicts.DeliveredFailedYetQueuedIff | app/api/whatsapp/webhook.py:759-763 | For a delivery, checked or not: exactly when one of its messages is bound to be dead-lettered and another to be rescheduled |
| WebhookVerdicts.FailedYetQueuedRun | app/api/telegram.py:331-336 | A run with one envelope of two messages that ends failed and queued |
| WebhookVerdicts.ChannelsDifferIff | app/api/whatsapp/webhook.py:571-591 | The two channels judge an exception differently exactly when it is both a ValueError or TypeError and a transport failure, which Telegram retries |
| WebhookVerdicts.ChannelsPartWays | app/api/telegram.py:281-290 | One delivery that ends failed with an empty queue on WhatsApp and queued on Telegram |
| WebhookRetryProperties.PassesAreBounded | app/api/whatsapp/webhook.py:591-617 | One delivery of n messages causes at most 1 + n + n^2 + n^3 passes in any run, and exactly that many when deliveries skip the dedupe, every message keeps failing recoverably and the queue has run dry |
| WebhookRetry.PopPassLowersWeight | app/api/whatsapp/webhook.py:439-447 | Each pass of the drain loop strictly lowers the total weight of the queue, in which an entry for attempt a weighs 1 plus n times the weight of attempt a+1 |
| WebhookRetryProperties.BackoffIsBounded | app/api/whatsapp/webhook.py:429-433 | The wait before an attempt lies between 2 and 60 seconds and never shrinks with the attempt |
| WebhookRetryProperties.BackoffDoubles | app/api/whatsapp/webhook.py:430-430 | The waits are 2, 4, 8, 16, 32 and 60 seconds, each twice the one before until the cap |
| WebhookRetryProperties.RetryFallsDue | app/api/whatsapp/webhook.py:429-433 | A message that is rescheduled puts its envelope on the queue for the next attempt, due 2, 4 or 8 seconds after the clock reading; any other verdict leaves the queue alone |
| WebhookRetryProperties.QueueOrder | app/api/whatsapp/webhook.py:432-440 | In every run the queue is ordered by due time, then envelope, then attempt |
| WebhookRetryProperties.DrainTakesExactlyTheDue | app/api/telegram.py:212-224 | With a clock that never goes back, a drain makes one pass for each entry due when it began, in the queue's order, and none for anything rescheduled meanwhile |
| WebhookRetryProperties.DrainKeepsTheRest | app/api/whatsapp/webhook.py:436-448 | Entries not due at the start of a drain are still queued after it, as often as before |
| WebhookRetryProperties.DrainIsExactInEveryRun | app/api/whatsapp/webhook.py:436-448 | After any run, a drain takes exactly the entries due at its clock reading in nondecreasing order of due time, keeps all others, and leaves nothing due |
| WebhookRetryProperties.ThreeLateDrainsSettleEverything | app/api/whatsapp/webhook.py:594-617 | After any run, three drains each called once everything queued has come due empty the queue and leave every message that passed its dedupe check completed or dead-lettered |
| WebhookRetryProperties.PassEvents | app/api/whatsapp/webhook.py:500-526 | A pass writes one record per message of the envelope, in order; without the dedupe check none of them is a skip |
| WebhookDedupe.KeysAgreeIff | app/channels/core/webhook_runtime.py:79-84 | Two messages share a dedupe key exactly when the first non-empty identifier in the channel's order is of the same kind and equal in both, or neither has any |
| WebhookDedupe.DeliveredKeysAreClaimed | app/channels/core/webhook_runtime.py:143-169 | All keys of an earlier delivery that consulted the store stay claimed for the rest of the run |
| WebhookDedupe.RedeliveryIsInert | app/api/whatsapp/webhook.py:513-526 | A redelivery, at any later point of a run, of a payload whose messages all carry an identifier handles nothing, schedules nothing, claims nothing, records only skips and ends as processed |
| WebhookDedupe.SkipsDropNothing | app/api/whatsapp/webhook.py:513-526 | In every run each skip has an earlier record, not itself a skip, of a message with the same dedupe key, and that message is settled or its envelope is queued |
| WebhookDedupe.SkippedMessageIsHandledLaterIffQueued | app/api/whatsapp/webhook.py:441-446 | After any run a late drain handles a message of an envelope, whatever its earlier verdicts, exactly when the envelope is in the queue |
| WebhookDedupe.HandledOncePerPass | app/api/whatsapp/webhook.py:500-526 | In every run each message is recorded once by every pass over its envelope, and at most one of these records is a skip |
| WebhookDedupe.SkippedThenHandledIff | app/api/whatsapp/webhook.py:513-526 | In every run a message skipped as a duplicate has also been handled exactly when its envelope has been passed over at least twice |
| WebhookDedupe.LateDrainHandlesSkippedIff | app/api/whatsapp/webhook.py:441-446 | A message skipped in the first pass over its envelope is handled by the next late drain exactly when some message of the envelope is bound to be rescheduled in that pass |
| WebhookDedupe.SkippedThenHandledRun | app/api/telegram.py:246-260 | A run of two deliveries and a drain in which a skipped message is handled |
| WebhookRuntime.RetryRuntime.ClaimIdempotencyKey | app/channels/core/webhook_runtime.py:143-179 | A claim is won exactly when the message has no key or the key was not yet claimed; afterwards the key is claimed |
| WebhookRetryProperties.RetryIsQueuedInOrder | app/api/telegram.py:205-209 | Scheduling a retry adds one entry due between 2 and 60 seconds from now, loses none, and leaves the heap in popping order |
| WebhookRuntime.RetryRuntime.ProcessMessage | app/api/telegram.py:238-329 | One turn of the message loop is the model's step: the dedupe check, the outcome by exception family and attempt, the reschedule, and one terminal record |
| WebhookRuntime.RetryRuntime.ProcessEnvelope | app/api/whatsapp/webhook.py:489-697 | The message loop with its two failure flags makes the model's pass, the status failed before queued before processed, and ignored when there are no messages |
| WebhookRuntime.RetryRuntime.ProcessRetryQueue | app/api/whatsapp/webhook.py:436-448 | The drain loop terminates, leaves the state of the model's drain and returns the number of passes it made |
| WebhookRuntime.RetryRuntime.Receive | app/api/whatsapp/webhook.py:759-763 | A delivery stores the envelope and makes its first pass, as in the model |
| RateLimit.AdmissionBound | app/api/whatsapp/webhook.py:146-185 | Any window of the configured length holds at most the configured number of admitted calls of a client, although refused calls count as well and admissions are never looked at |
| RateLimit.LiveScores | app/api/whatsapp/webhook.py:93-102 | Whether the stored set is still alive or has expired, reading it after the eviction gives exactly the calls of the plain window over all history |
| RateLimit.Limiter.IncrementSlidingWindow | app/api/whatsapp/webhook.py:93-102 | The returned count is the number of calls ever made to the bucket in (now - window, now], and the limiter's invariant is kept |
| RateLimit.BucketsCoincideIff | app/api/whatsapp/webhook.py:89-90 | Buckets of the two limits never coincide, whatever a client or a sender is called, and two subjects of one limit share a bucket exactly when they agree in their first 120 characters |
| RateLimit.WebhookLimits.EnforceWebhookRateLimit | app/api/whatsapp/webhook.py:146-185 | A call is admitted exactly when at most the limit of calls of the client, itself and refused ones included, fall into the window; the senders' limit is untouched |
| RateLimit.WebhookLimits.EnforceSenderSpamLimit | app/api/whatsapp/webhook.py:188-205 | The same for a sender, with the sender limit's own window and maximum; a sender that is blank after stripping is let through uncounted |
| AuditChainProperties.SplitAtFirstBar | app/channels/core/audit_security.py:136-139 | The hashed text splits in one way only into a previous hash without a bar and the payload |
| AuditChainProperties.HeadDeterminesHistory | app/channels/core/audit_security.py:136-139 | Two well-formed chains with the same last hash have the same length and the same payload text, previous hash and hash in every record, unless the digest collides on one of their own texts |
| AuditPayloadProperties.PrintUnique | app/channels/core/audit_security.py:136-137 | Canonical JSON text is uniquely decodable: the value in front of a text and what follows it are determined by the text |
| AuditPayloadProperties.PrintInjective | app/channels/core/audit_security.py:130-137 | Equal canonical texts come from equal payloads |
| AuditPayloadProperties.ItIsJson | app/channels/core/audit_security.py:137-137 | The text is JSON with a comma and a colon as separators and no blanks |
| AuditPayloadProperties.HeadDeterminesPayloads | app/channels/core/audit_events.py:125-142 | The head of a channel's chain determines the hashed payload of every record in it |
| AuditPayload.SanitizeCleans | app/channels/core/audit_security.py:49-72 | Sanitizing leaves, at any depth, no string value with an at sign or six digits and only the marker under a sensitive key; it changes a payload exactly when there was something to hide; doing it twice is doing it once |
| AuditRedaction.StringIsHiddenIff | app/channels/core/audit_security.py:49-55 | A string value becomes the marker exactly when it holds an at sign or at least six digits anywhere, and is kept otherwise |
| AuditRedaction.SensitiveIff | app/channels/core/audit_security.py:16-31 | A key in small letters is sensitive exactly when it is one of thirteen names |
| AuditRedaction.SensitivityIgnoresCaseAndBlanks | app/channels/core/audit_security.py:62-63 | Neither the letter case of a key nor blanks around it change whether its value is hidden |
| AuditRedaction.AuthorizationIsHidden | app/channels/core/audit_security.py:58-66 | The value under Authorization, with any blanks around the key, is replaced by the marker |
| AuditPayloadProperties.AtSignSurvivesIff | app/channels/core/audit_security.py:58-72 | The canonical text of a sanitized payload holds an at sign exactly when a key does that no sensitive key stands above |
| AuditRedaction.DigitsSurviveIff | app/channels/core/audit_security.py:49-72 | The canonical text of a sanitized payload holds six digits in a row exactly when an integer of magnitude 100000 or more, a float, the text of a key, or the escapes of a string kept as it is hold them, no sensitive key standing above |
| AuditRedaction.PrintableShowsItsRuns | app/channels/core/audit_security.py:49-55 | Printable ASCII text shows exactly its own runs of six digits when escaped, and text with such a run is redacted as a value |
| AuditRedaction.AddressAsKey | app/channels/core/audit_security.py:58-72 | A payload with an address as a key that sanitizing leaves as it is, its text showing the at sign |
| AuditRedaction.NumberAsKeyOrValue | app/channels/core/audit_security.py:58-72 | Two payloads, with a phone number as a key and as an integer, that sanitizing leaves as they are, their texts showing the number, which would be redacted as a string value |
| AuditChain.BuildKeepsChain | app/channels/core/audit_events.py:105-143 | A batch, with channels interleaved in any order, keeps a channel's chain unbroken when the query returned the chain's last row |
| AuditChain.BuildBreaksChain | app/channels/core/audit_events.py:107-115 | When the query returned a row with another hash than the chain's last, any batch with an event of the channel breaks its chain |
| AuditChainProperties.AppendKeepsChainIff | app/channels/core/audit_events.py:107-142 | A batch that touches a channel keeps its chain whichever newest row the database returns, exactly when no two rows share the channel's newest time stamp |
| AuditChainProperties.TwoEventsInABatchTie | app/channels/core/audit_events.py:106-145 | A batch with two events of one channel leaves that channel's newest time stamp shared |
| AuditChainProperties.BatchesKeepChains | app/channels/core/audit_events.py:99-153 | When "newest" always returns the row inserted last, any sequence of batches, failed ones among them, leaves the channel's events as one unbroken chain |
| AuditChainProperties.BatchExtendsChains | app/channels/core/audit_events.py:145-151 | A batch only adds behind what each channel's chain holds, and a failed batch changes nothing |
| AuditChainProperties.SparseBatchesKeepChains | app/channels/core/audit_events.py:106-142 | Batches at strictly later times that hold no channel twice keep every chain, however the database breaks ties |
| AuditChain.AuditStore.PersistAuditEvents | app/channels/core/audit_events.py:99-153 | The whole batch is appended, or none of it when an event or the commit raises; the returned count is the number of rows added |
| AuditChain.AuditStore.ChainEvents | app/channels/core/audit_events.py:105-143 | The loop with the dictionary of last hashes builds exactly the records of the recursive definition |
| AuditChain.AuditStore.ChainEvent | app/channels/core/audit_events.py:107-142 | One turn looks an unknown channel up, chains the event and leaves the dictionary in step |
| FoodRuns.RunsAreOrderly | app/modules/events/food_collection_service.py:444-445 | In every run each event and flat has one pass, and each event's stored codes are pairwise distinct, unchanged by strip and upper and accepted by the counter's format check |
| FoodGeneration.GenerationIsExact | app/modules/events/food_collection_service.py:265-325 | A successful generation only appends unserved tokens of the event with pairwise distinct drawn codes that every counter accepts as they are, for each flat and food type exactly as many as its participating pass books, negative counts as none |
| FoodGeneration.GeneratedOnce | app/modules/events/food_collection_service.py:271-277 | In every run an event has one non-empty generation exactly when it has tokens and never two; once it has tokens a generation is refused and changes nothing |
| FoodGeneration.PassPlanIs | app/modules/events/food_collection_service.py:289-296 | A pass is given one token for each plate, the veg ones first, then jain, then kids, a negative count being none |
| FoodCodes.SpaceIsPower | app/modules/events/food_collection_service.py:218-218 | There are 31 to the power of the length possible codes |
| FoodCodes.AlphabetIs | app/modules/events/food_collection_service.py:20-20 | Codes are made of the capital letters but I, L and O, and the digits from 2 on |
| FoodCodes.AttemptsAre | app/modules/events/food_collection_service.py:222-224 | A code is drawn at most twice as often as codes are free, at least 64 and at most 10000 times; with a length of 8 or more and up to 852891032441 codes taken that is 10000 times |
| FoodCodes.GenerationSucceeds | app/modules/events/food_collection_service.py:236-350 | A permitted generation with a length of 8 to 20 at an event without tokens succeeds when the draws hold as many first occurrences as plates are planned, none after more repeats than are allowed, and its codes are these first occurrences in order |
| FoodCodes.DistinctDrawsSucceed | app/modules/events/food_collection_service.py:288-309 | In particular when the first draws, one for each planned plate, are legal and pairwise distinct, whatever their number |
| FoodCodes.RepeatsAreRedrawn | app/modules/events/food_collection_service.py:226-231 | And when no more than 63 repeats stand before each first occurrence |
| FoodCodes.GenerationGivesUp | app/modules/events/food_collection_service.py:226-233 | It is refused and changes nothing when only repeats follow for as often as a code is drawn |
| FoodCodes.GenerationRefusals | app/modules/events/food_collection_service.py:251-277 | Too short, not permitted and already generated are answered exactly in their cases, in that order, and a refusal changes nothing; without a plate to plan for it succeeds with no tokens |
| FoodEntitlement.ServingKeepsBudget | app/modules/events/food_collection_service.py:432-744 | Opening, serving and lookups never take a flat's tokens plus fallbacks beyond its entitlement, and give a plate without a token only after all its tokens |
| FoodEntitlement.GenerationKeepsBudgetIff | app/modules/events/food_collection_service.py:279-309 | A generation keeps a flat within its entitlement exactly when its participating bookings hold no negative count and it had no fallback at the event; other events are untouched |
| FoodEntitlement.BookingKeepsBudgetIff | app/modules/events/food_pass_service.py:102-139 | A booking keeps a flat within its entitlement exactly when it is not below what the flat can already claim, an opt-out exactly when that is nothing |
| FoodEntitlement.EntitlementBound | app/modules/events/food_collection_service.py:659-734 | In every run in which no successful step books a negative count, books below what is claimed or generates after a fallback, served tokens plus fallbacks of a flat never exceed its participating entitlement, and a fallback implies that all the flat's tokens are served |
| FoodEntitlement.OverdrawIff | app/modules/events/food_collection_service.py:627-744 | From any state in which a counter is ready, serving alone can take a flat beyond its entitlement exactly when its tokens plus fallbacks already exceed it |
| FoodRuns.OverdrawInRunsIff | app/modules/events/food_collection_service.py:627-744 | The same after any run, with an open counter and an actor that is not locked out |
| FoodRuns.GeneratedAfterFallback | app/modules/events/food_collection_service.py:279-309 | A run, whatever legal codes are drawn, in which a flat that booked one plate is handed two: one without a token, and then the token generated afterwards |
| FoodRuns.OverriddenLookupIff | app/modules/events/food_collection_service.py:638-676 | An overridden lookup is answered "not permitted" exactly when the counter is open and the flat has a waiting token with a well-formed code |
| FoodRuns.OverriddenLookupInRunsIff | app/modules/events/food_collection_service.py:638-676 | After any run: exactly when the counter is open and a token of the flat waits |
| FoodRuns.OverriddenLookupFails | app/modules/events/food_collection_service.py:669-676 | A run after which a permitted lookup hands the token out and an overridden one is answered "not permitted" |
| FoodRuns.OverriddenLookupServes | app/modules/events/food_collection_service.py:678-734 | The same run without the generation, after which the overridden lookup serves |
| FoodRuns.EntitledFlatRefusedIff | app/modules/events/food_collection_service.py:692-714 | A flat with entitlement left, at an open counter and without a waiting token, is refused exactly when its fallbacks at other events make up for what is left, and is served otherwise |
| FoodRuns.FlatViewExactIff | app/modules/events/food_collection_service.py:759-776 | The per-flat view of an event counts the plates of that event exactly when the flat had no fallback at another |
| FoodRuns.DashboardExactIff | app/modules/events/food_collection_service.py:863-915 | The dashboard of an event counts the plates of that event exactly when none of its flats had a fallback at another |
| FoodRuns.ServedAtTheOtherEvent | app/modules/events/food_collection_service.py:702-714 | A run with two events in which a flat is refused the plate it booked and never had |
| FoodEntitlement.SetPassEntitles | app/modules/events/food_pass_service.py:111-140 | A booking sets its flat's entitlement at its event to what it books, leaves every other flat's and event's as it was, and keeps one row per event and flat |
| FoodEntitlement.OptOutForfeits | app/modules/events/food_pass_service.py:254-282 | After an opt-out the flat is entitled to nothing, gets no generated token, and a lookup without a token of it is refused; a later booking leaves the passes as if it had never opted out |
| FoodCounter.CounterOpenIff | app/modules/events/food_collection_service.py:477-487 | With a clock that never goes back, after any run the check finds an event's counter open exactly when it was opened and the time for which it was opened last is not over |
| FoodAnswers.FirstRefusals | app/modules/events/food_collection_service.py:441-505 | Each refusal before the token is looked up is given exactly in its case; the one for too many failures exactly when the actor has a burst at the event less than ten minutes old. Only an expired counter is closed on the way, and a locked-out attempt logged |
| FoodAnswers.TokenIsHandedOut | app/modules/events/food_collection_service.py:507-624 | Past these refusals a waiting token is served on its own code, its row and the log holding the presented method, the actor and the time; a served one is refused and stays as it is |
| FoodAnswers.UnknownCodeIsAGuess | app/modules/events/food_collection_service.py:515-527 | Past these refusals a code that is not on file is logged as a guess, with a burst exactly when five rejections of the actor, event and method in the last three minutes were on file |
| FoodAnswers.LookupTakesFirst | app/modules/events/food_collection_service.py:659-676 | A permitted lookup hands out the flat's first waiting token |
| FoodAnswers.LookupIsRecorded | app/modules/events/food_collection_service.py:669-676 | A token handed out by a lookup is on file as a flat lookup of the actor at that time |
| FoodAnswers.FallbackIsRecorded | app/modules/events/food_collection_service.py:713-734 | A lookup that serves without a token adds the row saying for which flat, by whom and when, changes nothing else, and finds no waiting token |
| FoodAnswers.DeskAnswers | app/modules/events/food_collection_service.py:380-391 | A booking is refused exactly without permission or below one plate, an opt-out and an opening exactly without permission; an opening lasts the minutes given |
| FoodCounter.PlatesOnlyWhileOpen | app/modules/events/food_collection_service.py:386-391 | In every run a plate, with a token or without, is handed out only after the event's counter was opened and not after the time for which it was opened last |
| FoodLockout.FailedGuessBound | app/modules/events/food_collection_service.py:39-137 | In every run, in any closed three-minute interval one actor makes at most 6 unknown-token guesses at an event with one method and at most 16 with all three, and after a burst no token is served to the actor there for ten minutes |
| FoodLockout.RunsAreLawful | app/modules/events/food_collection_service.py:489-540 | In every run each guess and each serve on the log was made while its actor was not locked out, and each guess carries a burst row exactly when five failures of the window were already on file |
| FoodSummary.DashboardAgreesWithFlats | app/modules/events/food_collection_service.py:842-925 | The dashboard's total, served and remaining plates equal the sums of the per-flat view over all flats with a token or a pass, and so do each food type's row and the fallback row |
| FoodSummary.RowsAddUpWithoutClipping | app/modules/events/food_collection_service.py:909-925 | The dashboard's rows by type add up to its totals, and neither view ever clips its remaining plates at zero |
| FoodDesk.BuildTokenCode | app/modules/events/food_collection_service.py:211-233 | The rejection loop returns the first of the allowed number of draws that is not taken, or none when all are taken or the space is used up |
| FoodDesk.AppendRows | app/modules/events/food_collection_service.py:295-309 | The innermost loop adds the wanted number of rows for one flat and food type with fresh codes, or finds that no such codes can be drawn |
| FoodDesk.AppendPass | app/modules/events/food_collection_service.py:289-309 | The rows of one pass are those of its plan, type by type, with fresh codes |
| FoodDesk.Desk.GenerateTokensForEvent | app/modules/events/food_collection_service.py:236-350 | The nested loops leave the tables of the model's generation and give its outcome |
| FoodDesk.Desk.RecordFailedTokenAttempt | app/modules/events/food_collection_service.py:69-137 | The rejection is added, with a burst row exactly when five earlier failures of the window are on file: the count does not see the row just added |
| FoodDesk.Desk.VerifyAndServeToken | app/modules/events/food_collection_service.py:432-624 | The checks in order leave the tables of the model's verification and give its outcome |
| FoodDesk.Desk.ServeByFlatLookup | app/modules/events/food_collection_service.py:627-744 | A waiting token goes through verification without the override, and only without one may the flat be served against its remaining entitlement |
| CounterRace.ServeOnce | app/modules/events/food_collection_service.py:521-624 | Under every interleaving of reads, checks and conditional updates, a served token has exactly one SERVE entry, which is the winner's and what the row says; every finished attempt has exactly one entry; every loser's token is served, and its entry names the method exactly when it lost at the check, none when it lost at the update |
| CounterRace.ServedForGood | app/modules/events/food_collection_service.py:565-579 | However a run goes on, a served row keeps its time, method and server |
| CounterRace.ExactlyOneWinner | app/modules/events/food_collection_service.py:565-601 | Two attempts on one token never both win, and once one has finished exactly one serve is on file |
| CounterRace.AttemptsFinish | app/modules/events/food_collection_service.py:507-601 | An attempt whose steps are taken one after the other finishes, and wins exactly when the row was unserved, which then holds its time, method and server |
| CounterRace.UpdateDecides | app/modules/events/food_collection_service.py:565-601 | A cleared attempt wins exactly when the row is still unserved at its update |
| DeliveryProperties.RunSpends | app/modules/announcements/delivery_worker.py:375-414 | One run keeps the invariant, changes no finished row, and spends an attempt for each of as many open rows as the batch allows |
| DeliveryProperties.ClaimedRows | app/modules/announcements/delivery_worker.py:347-372 | The claim returns open rows only, in key order and none twice |
| DeliveryProperties.DeliveryInvariant | app/modules/announcements/delivery_worker.py:233-296 | Over every sequence of announcements and worker runs a pending or processing row has attempts left, no row exceeds the limit, a row is sent exactly when it has a sending time and exactly then the provider took one message for it, and finished rows never change |
| DeliveryProperties.BusyRunsAreBounded | app/modules/announcements/delivery_worker.py:375-414 | However announcements and runs alternate, at most N times the attempt limit runs with a batch of at least one find an unfinished row, N being the rows ever created |
| DeliveryProperties.EveryRowIsFinished | app/modules/announcements/delivery_worker.py:347-414 | After any history, N times the attempt limit further runs with a batch of at least one finish all N rows, although the claim always prefers low keys |
| DeliveryAnswers.ProcessDecides | app/modules/announcements/delivery_worker.py:233-296 | One processing of an open row skips it exactly without an opt-in, sends it exactly when nothing is missing and the provider accepts, puts it back exactly when the provider fails transiently with attempts left, and fails it in the other cases, which are listed; it costs one attempt each way |
| DeliveryAnswers.FateFollowsAnswers | app/modules/announcements/delivery_worker.py:255-296 | In every run a deliverable row was tried once per answer of the provider, again only after transient failures; it is sent when the last answer accepts, failed when that is permanent or the last transient one allowed, and open while attempts are left |
| DeliveryAnswers.AcceptedIsSent | app/modules/announcements/delivery_worker.py:375-414 | After enough further runs a deliverable row is sent exactly when the provider accepted it, and failed exactly when it met a permanent error or as many transient ones as there are attempts |
| DeliveryAnswers.ClaimMarks | app/modules/announcements/delivery_worker.py:347-372 | A claim marks the claimed rows as processing from now on and leaves all others alone |
| DeliveryAnswers.AnnouncedIsDeliverableIff | app/modules/announcements/service.py:143-164 | A newly announced row is pending without attempts, and deliverable exactly when channel, text, opt-in, template and parameters are all there |
| DeliveryWorker.Worker.ProcessAnnouncementDelivery | app/modules/announcements/delivery_worker.py:233-296 | The status, attempt and time fields end as in the model, and the call counts as sent exactly when the provider took a message |
| DeliveryWorker.Worker.ClaimPendingDeliveries | app/modules/announcements/delivery_worker.py:347-372 | The first open rows up to the batch size, and no others, are marked processing |
| DeliveryWorker.Worker.RunPendingAnnouncementDeliveries | app/modules/announcements/delivery_worker.py:375-414 | The batch loop makes the model's run and returns the number of messages the provider took |
| LedgerProperties.OverridesAreAccounted | app/workflows/engine.py:62-139 | However event states and the committee change, each of the three actions has as many OVERRIDE audits as rows written while the event was neither ACTIVE nor LOCKED nor EVENT_DAY, each such row by a then-active officer with a reason; the log is, row by row, what the written rows call for; each contribution and each refund has exactly one ordinary audit of its own, and each event as many as it has expenses |
| LedgerProperties.OverridesNameTheOfficer | app/workflows/engine.py:165-175 | In every run each OVERRIDE row carries the kind, the entity and the non-blank performer and reason of a write outside the rules by a then-active officer, and each such write has its OVERRIDE row |
| LedgerProperties.OverridesNameTheirStep | app/workflows/engine.py:98-139 | In every run each OVERRIDE row stems from an operation that wrote its row outside the rules; it names that row's entity, the operation's performer, who was an active officer then, and its reason, neither of them blank |
| LedgerProperties.OverridesAreAttested | app/workflows/engine.py:143-180 | An operation that writes its row outside the rules has its OVERRIDE row, with its own performer and reason, on the log for the rest of any run |
| LedgerProperties.RulesAllowIff | app/workflows/rules.py:34-70 | Expenses, contributions and refunds are allowed in the states ACTIVE, LOCKED and EVENT_DAY and in no other |
| LedgerProperties.DecisionIs | app/workflows/engine.py:62-139 | In these states the engine allows the three actions to anyone; in any other state on file it takes an active chairman, secretary or treasurer and a reason; an event without a state is denied |
| LedgerProperties.RecordCounts | app/workflows/engine.py:165-175 | A written row adds one ordinary audit of its entity, and an override audit exactly when the event is in none of the three states |
| LedgerProperties.SponsorCodeInjective | app/modules/contributions/contribution_service.py:91-91 | Zero-padded sponsor codes differ for different counts, past 999 too |
| LedgerProperties.SponsorCodeReads | app/modules/contributions/contribution_service.py:91-91 | A code is SP- and the number in decimal, with leading zeros only up to three digits |
| LedgerProperties.CountForIs | app/modules/contributions/contribution_service.py:85-89 | The number in a code counts the contributions of its event |
| LedgerProperties.SponsorLedger | app/modules/contributions/contribution_refund_service.py:64-78 | In every run the codes of an event are pairwise distinct, and the net refunds against a contribution never sum above its amount, overrides included |
| LedgerProperties.RefundOverpaysIff | app/modules/contributions/contribution_refund_service.py:73-78 | A granted positive refund takes the money paid out above the contribution exactly when it is more than the amount less the net refunds and less what negative refunds took back |
| LedgerProperties.PaidWithinAmount | app/modules/contributions/contribution_refund_service.py:64-116 | In every run the money paid out exceeds the contribution by no more than what negative refunds took back, and not at all when none is on file |
| LedgerProperties.OverpaidRun | app/modules/contributions/contribution_refund_service.py:73-116 | A run that pays out 150 against a contribution of 100 |
| LedgerProperties.ExpenseWrittenIff | app/modules/expenses/expense_service.py:41-69 | An expense is written exactly when its amount is positive, its event exists, and its state is ACTIVE, LOCKED or EVENT_DAY or an active officer overrides it with a reason: one row, the event's total grown by the amount, and an OVERRIDE audit exactly in the second case. Otherwise nothing changes and the first reason that applies is given |
| LedgerProperties.RefundWrittenIff | app/workflows/engine.py:33-139 | A refund is written exactly when some contribution of the event carries the code and can still bear it, and the state is one of the three or an officer overrides it: one row with the amount against that contribution, and its audits; otherwise nothing changes |
| LedgerProperties.FoundRefundWrittenIff | app/modules/contributions/contribution_refund_service.py:40-116 | The answers of a refund in the source's order, and the row against the first contribution with the code when all conditions are met |
| LedgerProperties.CodeResolvesBack | app/modules/contributions/contribution_service.py:85-138 | The code returned for a contribution finds that very contribution, then and for the rest of any run |
| LedgerProperties.ContributionWrittenIff | app/modules/contributions/contribution_service.py:54-83 | A contribution is written exactly when its event exists and its state is one of the three or an officer overrides it: one row with the amount, and its audits; otherwise nothing changes |
| Ledger.Book.AddExpense | app/modules/expenses/expense_service.py:41-109 | The tables and the outcome are the model's, the override flag on the row included |
| Ledger.Book.AddContribution | app/modules/contributions/contribution_service.py:54-138 | The row, its code from the event's count, and its audits are the model's |
| Ledger.Book.ProcessRefund | app/modules/contributions/contribution_refund_service.py:40-147 | The refusals in order, or the refund row and its audits, are the model's |
| ReportPaging.PagingCoversEverything | app/channels/whatsapp/ui_router.py:135-156 | The pages hold each option once and in order, k presses of More lead to page k modulo their number, and no list exceeds ten rows with the More row; up to ten options make one page, more make full pages of nine and a last one |
| ReportPaging.GroupingPermutes | app/channels/whatsapp/report_flow.py:63-82 | The sections show exactly the page's options, each as often as the page has it |
| ReportPaging.PressesShowEverything | app/channels/whatsapp/report_flow.py:192-350 | The first page and one press of More fewer than there are pages show every option exactly as often as the list has it, and no other |
| ReportPaging.GroupPage | app/channels/whatsapp/report_flow.py:63-82 | The dictionary loop and the sorted loop give one non-empty section per category, by name, each with its options in the page's order |
| ReportPaging.SortedKeys | app/channels/whatsapp/report_flow.py:68-68 | The dictionary's keys in strictly ascending order, all of them and no others |
| ReportPaging.LessIff | app/channels/whatsapp/report_flow.py:68-68 | Strings are ordered by the first character in which they differ, a proper prefix coming first |
| ReportPaging.InCategoryKeepsOrder | app/channels/whatsapp/report_flow.py:63-66 | Picking out a category keeps the order of the page |
| ReportPaging.BuildReportsListSections | app/channels/whatsapp/report_flow.py:41-100 | Nothing without options, else the groups of the page the index stands for and a More row exactly when asked for |
| ReportPaging.ExportSession.ShowOptions | app/channels/whatsapp/report_flow.py:192-209 | Shows the first page and stores page 0 |
| ReportPaging.ExportSession.PressMore | app/channels/whatsapp/report_flow.py:318-350 | Stores the next page, around to the first after the last, and shows it |
| RequestCodes.ToBase36 | app/utils/request_codes.py:13-22 | The divmod loop prints the base-36 numeral of the number |
| Numerals.NumeralRoundTrip | app/utils/request_codes.py:13-22 | Reading a printed number gives it back |
| Numerals.NumeralForm | app/utils/request_codes.py:13-22 | A printed number holds digits of the base only and, but for 0, no leading zero |
| RequestCodes.SuffixLengthIff | app/utils/request_codes.py:25-28 | The suffix has the requested length exactly when that length is at least 1 |
| RequestCodes.CodeForm | app/utils/request_codes.py:25-28 | A code of the usual length is the prefix, a dash and six base-36 digits |
| RequestCodes.SuffixOfNoLength | app/utils/request_codes.py:25-28 | For a length L of 0 or less the suffix is the printed number without its first -L characters |
| RequestCodes.SuffixValue | app/utils/request_codes.py:25-28 | For a length L of at least 1 the suffix is a base-36 numeral of the number modulo 36^L |
| RequestCodes.CodesCollideIff | app/utils/request_codes.py:25-28 | Two numbers get the same code under one prefix exactly when they agree modulo 36^L |

## Left out

- Concurrency of background tasks, drains and delivery workers: apart from the counters of `CounterRace`, calls do not overlap. The RQ backend, and with it several workers on one row, is not modelled.
- Process crashes and unavailable stores: the retry queue lives in memory and the source fails open; neither is modelled, nor are the error paths for over-long keys.
- Sending, routing, signature checks, size limits, session dictionaries, PDF and CSV export: only their outcome class reaches the model.
- WebhookRetry.World: the handlers behind one message (menus, sessions, reports, intents) are one arbitrary outcome.
- RateLimit.Limiter.IncrementSlidingWindow: does not model floating-point time stamps, because scores are whole microseconds; Redis is assumed to expire keys by the caller's clock.
- AuditPayloadProperties.PrintUnique: strings are sequences of Unicode scalar values; a Python string with unpaired surrogate code points is not modelled, and two such halves in a row print like the character that they encode. Objects are listed in printed order, and a float is kept as Python prints it.
- AuditPayloadProperties.PrintInjective: the same limit on strings, because the model's characters cannot be surrogates.
- AuditPayloadProperties.HeadDeterminesPayloads: the same limit on strings.
- AuditPayload.SanitizeCleans: strip, lower and isdigit are those of ASCII text.
- AuditRedaction.DigitsSurviveIff: the same; a digit of another script is printed as an escape and not counted.
- AuditChain: which fields enter the payload, their encryption and the choice of the privacy mode, the lookup of the society, legacy rows without a hash, and retention pruning (which leaves holes) are not modelled.
- FoodModel.Generate: does not model the path in which the database rejects a duplicate code written by a concurrent generation; a code longer than its column (app/db/models.py:388) is refused as a whole. A missing event and a missing role are one refusal together with the workflow's, given in one place where the source checks the role before the token length and the workflow after it.
- FoodModel.FirstWaiting: tokens of one generation tie on their creation time; the model takes the first in the table.
- FoodModel: override audits of the food and pass operations, payments, QR payloads, the lists of tokens and of recent serves, and calls without a performer are not modelled; the answer of the role check and the workflow engine is an argument.
- FoodSummary: food types outside veg, jain and kids and rows without a flat are not modelled.
- DeliveryModel: the announcement's sent, failed and skipped counters are not modelled (they are read before the new status is written), nor locale choice, the key lookup of a missing row, the in-session path `_process_delivery_instance`, or the waiting between attempts; the claim is taken to return its rows in key order, and one announcement's rows are created one after another.
- LedgerProperties.OverridesAreAccounted: an expense's audits name its event, as in the source, so they are matched to the expenses of the event and not one by one.
- LedgerModel: amounts are whole numbers; titles, notes and the audits' free text are not modelled, and events, their states and the committee change arbitrarily between calls.
- ReportPaging: labels, translated texts and row identifiers are not modelled; a row stands for its option.
- RequestCodes: the retry when a code is already taken lies with its callers and is not modelled.
