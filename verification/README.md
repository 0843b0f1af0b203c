# A verified model of the repricer's hard core

The repository is a repricer for many tenants. This project models the parts of it whose correctness
cannot be read off one function, as Dafny 4.11 modules, and proves what those parts are for:

- **The notification receiver** (`sqs_queue.dfy`, `receiver_protocol.dfy`, `receiver_safety.dfy`,
  `receiver.dfy`, `ledger_sink.dfy`). An at-least-once queue with a visibility timeout, any number of
  receivers, fan-out to several accounts, a journal, a deduplication ledger, failures and crashes at every
  call, and deletes at the end of a poll. The queue and the receiver are classes with the source's loops;
  whatever other receivers do between two calls of a poll, the poll is a run of the protocol, so the
  theorems about all runs hold after it. The sink behind it is a second system of steps: overlapping calls
  whose transactions insert the ledger entry, wait, commit or roll back. From these the contract that the
  protocol needs of its sink is derived, with the exact set of deliveries that meet it.
- **Two rate limiters.** The console's sliding minute per client with eviction and a background sweep
  (`rate_limiter.dfy`, `limiter_sweep.dfy`, `client_key.dfy`) refines the full log of admissions, with the
  exact condition under which a sweep cannot be noticed; the two-level token budget of the Amazon adapter
  (`rate_budget.dfy`) keeps its bound in every interval, for one seller and for all, at the rates observed
  last (`budget_windows.dfy` says what an answer lets through).
- **The write path to Amazon.** The planner (`planning.dfy`), the dispatcher (`dispatch.dfy`), the retry
  loop under every call (`transport.dfy`, joined to the dispatcher in `write_path.dfy`), the read-back and
  the confirmation (`readback.dfy`) and the decimal text of amounts (`minor_units.dfy`), with theorems
  that join them: every write that is planned and dispatched is answered exactly once, a failed PATCH is
  reported unknown exactly when it can have been processed, and a price that was written and shown is
  confirmed.
- **Caches and incremental views.** The two caches of a user's worlds with an await in the middle of the
  update (`tenant_worlds.dfy`), the weekly digest with its row written before and marked after the letter
  (`shadow_digest.dfy`), and the demo's orders read in windows (`orders.dfy`).
- **An encoder and its decoder.** The competitor snapshot and its row of parallel columns
  (`competitor_history.dfy`).

`common.dfy`, `text.dfy`, `sequences.dfy` and `channel_port.dfy` hold what several modules share.

Code that changes state in place is a class whose methods have the source's loops and state their new
state by a function; the theorems are lemmas about that function, for all inputs, runs or interleavings.
A JavaScript Map is a sequence of entries in insertion order. A value the environment chooses (an answer
of the network, a clock, a failure) is a parameter, so a statement covers everything it can be. Every
lemma switches automatic induction off: its body is its proof.

## What is not as the code or its description suggests

Each of these is a lemma with a concrete case and, where it depends on the input, the exact condition.

- A plain sink with two receivers can give a notification effect twice although nothing fails
  (`ReceiverSafety.PlainSinkTwoReceivers`); the bound for many receivers holds exactly with the ledger in
  the sink's own transaction (`ReceiverSafety.OnlyTheLedgerHoldsForMany`).
- The sink can answer ACCEPTED for a notification that is in the ledger already, and DUPLICATE for one that
  never was: a delivery with nothing to record the entry with (a store that is not enabled) is marked at
  its end without a look at the row count, and for an account that does not exist the insert adds no row.
  Which deliveries are answered right in every run is `LedgerSink.HonestExactlyWhenMeets`.
- The entry is recorded with the first item of a delivery. A call that stops after it leaves the items
  behind it undone for good; a delivery is applied as a whole in every run exactly when nothing is to be
  done behind its first guarded item (`LedgerSink.WholeExactlyWhenNothingBehind`). The Amazon adapter gives
  one item at most.
- The ledger and the journal know a notification by tenant and channel, not by account: two accounts of one
  tenant share an entry, and of their routes of a message one is accepted at most
  (`LedgerSink.TwoAccountsShare`).
- The background sweep of the console's limiter can change an answer, once the map is full: it cannot
  exactly when no stale entry stands behind a fresh one (`LimiterSweep.InvisibleExactlyWhenStaleFirst`,
  with a run that shows it in `LimiterSweep.SweepShows`). At most `maxClients` clients never notice.
- A call makes at most `maxAttempts + 1` sends exactly for policies of at least one attempt; a policy of
  zero attempts can send twice (`Transport.BoundIsExact`).
- The dispatcher's check of a batch admits several quantities of one SKU. Only the first is sent, and all
  can be reported accepted. Acceptances say the truth exactly for prices and for quantities that are all
  the same (`Dispatch.TruthfulExactlyWhenUniform`); the planner makes only such batches.
- With the stores of Release 1.0, one for each region, a planned batch always holds exactly one write
  (`Planning.ReleaseBatchesHoldOne`).
- A competitor offer whose `holdsBuyBox` is `false` is written as `false`, read back as absent and would be
  written as `null`. Encoding again gives the same row exactly under the condition of
  `CompetitorHistory.Retracts`.
- The confirmation compares minor units only: a price in another currency with as many minor units is
  APPLIED (`ReadBack.AnotherCurrencyIsApplied`). Its APPLIED is right for every expected amount exactly
  when the offer names no currency or the store's (`ReadBack.TellsExactlyInStoreCurrency`).
- Two lists of memberships can share a fingerprint if an id holds the separator
  (`TenantWorlds.SeparatorsCollide`); of ids and roles without separators they cannot.
- `minorToDecimal` loses the sign of amounts from -99 to -1 (`MinorUnits.ReadsBackExactly`). Prices are
  never negative, so nothing depends on it.

## Model

| member | source | states |
|---|---|---|
| SqsQueue.FakeSqs.Send | packages/amazon-notifications/src/testing.ts:19-23 | A sent message joins the queue at its end, visible, never received, under a fresh id |
| SqsQueue.FakeSqs.Receive | packages/amazon-notifications/src/testing.ts:31-44 | Hands out the first visible messages, hides exactly those, counts their receipts and gives each a new handle; a planted failure changes nothing |
| SqsQueue.ReceiveIsExact | packages/amazon-notifications/src/testing.ts:34-42 | A receive hands out exactly the first visible messages up to its limit, in order, each with its new handle and count, and leaves every other message as it is |
| SqsQueue.FakeSqs.DeleteBatch | packages/amazon-notifications/src/testing.ts:45-56 | Takes out exactly the messages whose latest handle is named, and says entry by entry which succeeded |
| SqsQueue.FakeSqs.ChangeVisibility | packages/amazon-notifications/src/testing.ts:57-62 | Moves the visibility of the message whose latest handle is named, and of no other |
| SqsQueue.DeleteInChunks | packages/amazon-notifications/src/receiver.ts:261-272 | Deleting in several requests is deleting in one: chunks of ten change nothing |
| SqsQueue.DeletedCount | packages/amazon-notifications/src/testing.ts:45-56 | Every entry answered as successful took exactly one message out of the queue |
| ReceiverProtocol.SortedBatch | packages/amazon-notifications/src/receiver.ts:252-255 | A polled batch is handled in order of event time, nothing lost or added, equal times in queue order, no time last |
| ReceiverProtocol.OthersKeepLocal | packages/amazon-notifications/src/receiver.ts:141-152 | Other receivers and the queue never touch the local state of a receiver |
| ReceiverSafety.RunKeeps | packages/amazon-notifications/src/receiver.ts:141-292 | In every run every message sent is in the queue or has left it once, every copy carries what was sent, and every receiver's lists are justified |
| ReceiverSafety.NothingIsLost | packages/amazon-notifications/src/receiver.ts:152-235 | A message that left the queue was intact and, if it was eligible and its seller known, every route of the handling that deleted it has the notification in the ledger or rejected it |
| ReceiverSafety.ScreenedAs | packages/amazon-notifications/src/receiver.ts:155-186 | Which messages are screened out, and under which outcome; the others go to their routes |
| ReceiverSafety.FailedIsRetriedOrGivenUp | packages/amazon-notifications/src/receiver.ts:222-232 | A failed message stays in the queue: before its last allowed receipt hidden for the pause, from then on given up and left as it is |
| ReceiverSafety.PausesDouble | packages/amazon-notifications/src/receiver.ts:228 | The pause starts at the base, doubles with every receipt and stops growing at its limit |
| ReceiverSafety.OutcomeNamesACounter | packages/amazon-notifications/src/receiver.ts:233-235 | The fan-out counters add up to the routes, so the outcome's last fall-back is never taken |
| ReceiverSafety.RawTextFirst | packages/amazon-notifications/src/receiver.ts:196-202 | Nothing reaches the decision path before its raw text is in the journal |
| ReceiverSafety.AtMostOnce | packages/amazon-notifications/src/receiver.ts:196-221 | With a sink of the contract SinkMay, which LedgerSink derives, each notification takes effect at most once for its tenant, over any run of any number of receivers, and only together with its ledger entry |
| ReceiverSafety.OncePlusGaps | packages/amazon-notifications/src/receiver.ts:211-214 | With a plain sink and one receiver, effects are at most one plus the gaps between an accepted delivery and its mark, and these at most the failures and crashes of the run |
| ReceiverSafety.PlainSinkTwoReceivers | packages/amazon-notifications/src/receiver.ts:202-214 | With a plain sink, two receivers and a timeout that runs out, a notification takes effect twice without any failure |
| ReceiverSafety.OnlyTheLedgerHoldsForMany | packages/amazon-notifications/src/receiver.ts:211-214 | Effects are at most one plus the gaps in every run of any number of receivers if and only if the sink writes the ledger in its own transaction |
| LedgerSink.TakesEffectOnce | packages/pricing-pipeline/src/pipeline.ts:894-953 | However many calls for a notification overlap, roll back or stop, its guarded items take effect through at most one of them, each once; an accepted call has applied all its items; no entry has two effects |
| LedgerSink.CommitIsADelivery | packages/pricing-store-pg/src/store.ts:2288-2335 | The sink's contract derived: a call of a delivery with something to record, for an existing account, changes ledger, effects and rejections at one commit and nowhere else, as one delivery with an answer that SinkMay allows |
| LedgerSink.AnswerIsTheDecision | packages/amazon-notifications/src/receiver.ts:316-326 | A call decides once, and what it answers is what its transaction decided |
| LedgerSink.HonestExactlyWhenMeets | packages/pricing-pipeline/src/pipeline.ts:904-911 | Which deliveries are answered within the contract in every run: rejected ones, those with a guarded item for an existing account, and those of a tenant without any account |
| LedgerSink.WholeExactlyWhenNothingBehind | packages/pricing-pipeline/src/pipeline.ts:918-950 | A call that stops after recording its entry has applied all its items, in every run, exactly when nothing is to be done behind the first guarded one |
| LedgerSink.TwoAccountsShare | migrations/0083_amazon_notification_receiver.sql:57-58 | Of the deliveries of one notification to two accounts of a tenant at most one is accepted |
| LedgerSink.LedgerIsExact | packages/pricing-store-pg/src/store.ts:2288-2335 | If every delivery is rejected or has a guarded item, for an existing account, the ledger holds exactly the notifications that took effect or were rejected |
| Receiver.NotificationReceiver.Handle | packages/amazon-notifications/src/receiver.ts:152-235 | The outcome fits the message and the routes that the router answered for its seller, with which its handling began; it is queued for deletion with these routes exactly when the outcome is not CORRUPT, RETRY or GIVEN_UP; the alerts are those of the outcome; exactly one call has thrown when it is RETRY or GIVEN_UP, none for any other, and a handling without an outcome had a call that threw |
| Receiver.NotificationReceiver.Mangled | packages/amazon-notifications/src/receiver.ts:155-161 | A body that does not match its checksum keeps the message in the queue, with the alert of giving up from the last allowed receipt on, unless raising it throws |
| Receiver.NotificationReceiver.Drop | packages/amazon-notifications/src/receiver.ts:162-186 | A message that is screened out is queued for deletion with the outcome and the alert of its branch, exactly unless raising the alert throws |
| Receiver.NotificationReceiver.FanOut | packages/amazon-notifications/src/receiver.ts:187-235 | The fan-out ends in one outcome, and only one that is not RETRY or GIVEN_UP queues the message for deletion |
| Receiver.NotificationReceiver.EveryRoute | packages/amazon-notifications/src/receiver.ts:196-221 | The loop counts every route once as delivered, rejected or duplicate, and warns of a late message once for each that is no duplicate; or it stops at the call that threw |
| Receiver.NotificationReceiver.OneRoute | packages/amazon-notifications/src/receiver.ts:198-219 | Journal, ledger check, delivery and mark of one route in this order; what is known already is not delivered |
| Receiver.NotificationReceiver.Recover | packages/amazon-notifications/src/receiver.ts:222-232 | GIVEN_UP, with its alert, from the last allowed receipt on, RETRY before it, and neither queues the message for deletion |
| Receiver.NotificationReceiver.Fetch | packages/amazon-notifications/src/receiver.ts:241-255 | A poll takes at most ten messages in order of event time, and any message ends the silence at the clock's time |
| Receiver.NotificationReceiver.PollOnce | packages/amazon-notifications/src/receiver.ts:240-274 | One outcome for each message received; the queue is asked to delete exactly those whose outcome does not keep them, each of them settled on all its routes or screened out; deleted is the number of messages that the answered requests took out of the queue, deleteFailed the rest; whatever others do meanwhile, nothing is lost and, with a recording sink, nothing took effect twice. A poll that reports had as many calls that threw as it has outcomes RETRY and GIVEN_UP; one that was aborted had a call that threw, one that ends at the queue's error none |
| Receiver.NotificationReceiver.HandleAll | packages/amazon-notifications/src/receiver.ts:256-258 | The messages are handled one after the other, each with one outcome |
| Receiver.NotificationReceiver.DeleteAll | packages/amazon-notifications/src/receiver.ts:259-272 | Every message queued for deletion is asked for once; deleted counts what the answered requests took out of the queue, deleteFailed the entries that failed and the chunks whose request failed |
| Receiver.NotificationReceiver.CheckSilence | packages/amazon-notifications/src/receiver.ts:275-281 | One alert for each silence, exactly when it has lasted long enough by the clock and none was raised since the last message |
| RateBudget.TwoLevelBudget.Touch | packages/amazon-adapter/src/budget.ts:31-37 | Finds or creates the bucket and brings it up to date, and changes no other |
| RateBudget.TwoLevelBudget.TryAcquire | packages/amazon-adapter/src/budget.ts:39-63 | Both levels are charged or neither, and the answer and all buckets are those of the specification |
| RateBudget.TwoLevelBudget.ObservePairLimit | packages/amazon-adapter/src/budget.ts:65-70 | An observed positive rate becomes the pair's rate, creating its bucket if need be |
| RateBudget.RateIsTheObserved | packages/amazon-adapter/src/budget.ts:65-70 | The rate a pair's bucket uses is the last positive one observed for the pair in the calls so far, or else the documented one |
| BudgetWindows.AnswerIsExact | packages/amazon-adapter/src/budget.ts:31-70 | After any calls, by the calls and their answers alone: a request is refused by its pair exactly when some stretch of the pair's requests up to it leaves no whole token of the burst and of what flowed in at the observed rates, by the application exactly when that is so of all sellers' requests at the rates the outside load left and not of the pair's, and granted otherwise |
| RateBudget.SellerWindow | packages/amazon-adapter/src/budget.ts:31-63 | In every interval one seller gets at most burst plus r times its length, r the largest pair rate observed in it or in force before it, whatever the outside load |
| RateBudget.ApplicationWindow | packages/amazon-adapter/src/budget.ts:48-63 | In every interval all sellers together get at most max(1, applicationBurst) plus the documented rate times its length, however the outside load changes |
| RateBudget.PartIsWhatIsLeft | packages/amazon-adapter/src/budget.ts:48-52 | A process has what the load leaves of the application's rate, and the whole tokens of that part of the burst, at least one while anything is left |
| RateBudget.RefillTwice | packages/amazon-adapter/src/budget.ts:31-37 | Refilling in two steps is refilling in one |
| RateBudget.RefusalIsInvisible | packages/amazon-adapter/src/budget.ts:39-63 | At constant rate and load a refused acquisition changes no later answer to any seller |
| RateBudget.RetryAtIsExact | packages/amazon-adapter/src/budget.ts:43-59 | The refusing level has a whole token at retryAtMs and at no earlier whole millisecond, if nothing else is granted; at rate zero it is a minute on |
| RateLimiter.KeyOf | apps/console/server/stand-server.ts:2065-2073 | The forwarded header names the client only behind a trusted proxy, and a presented credential only chooses between the address's two counters |
| RateLimiter.FirstForwardedIsTheClient | apps/console/server/stand-server.ts:2066-2067 | Behind a trusted proxy the first address the header names is the client, trimmed, unless it is blank |
| RateLimiter.Limiter.Check | apps/console/server/stand-server.ts:2063-2086 | The answer to a request and the whole map after it, with deletion, reinsertion and eviction |
| RateLimiter.Limiter.Sweep | apps/console/server/stand-server.ts:2060 | Exactly the keys whose last admission is a minute old are forgotten |
| RateLimiter.SweepForgets | apps/console/server/stand-server.ts:2060 | A sweep forgets exactly the keys whose last admission is a minute old |
| RateLimiter.Limiter.Delete | apps/console/server/stand-server.ts:2075 | The entry of the key goes, the others keep their order |
| RateLimiter.NoMinuteExceeds | apps/console/server/stand-server.ts:2030-2036 | Of a log in which `limit + 1` successive admissions span a minute, at most `limit` lie in any minute |
| RateLimiter.WaitIsExact | apps/console/server/stand-server.ts:2076-2079 | A refused client that waits retryAfterSeconds is admitted if nothing else was, and is still refused after any whole number of seconds less |
| RateLimiter.RequestFollowsLog | apps/console/server/stand-server.ts:2063-2086 | In every good state a request is answered and logged as by the full log |
| RateLimiter.RefinesFullLog | apps/console/server/stand-server.ts:2055-2088 | After any run of requests and sweeps a request is admitted exactly when fewer than limit admissions of its key since its last eviction lie in the last minute; no stored list is empty, the map stays within maxClients, and eviction takes the keys asked for longest ago, only at the ceiling |
| RateLimiter.EveryMinuteRespectsTheLimit | apps/console/server/stand-server.ts:2055-2088 | In every run and for every key, admissions since the last eviction respect the limit in every minute |
| LimiterSweep.InvisibleExactlyWhenStaleFirst | apps/console/server/stand-server.ts:2055-2088 | In every good state a sweep changes no answer of any later run if and only if no stale entry stands behind a fresh one in the Map |
| LimiterSweep.SweepShows | apps/console/server/stand-server.ts:2055-2088 | A run in which the sweep makes the limiter refuse a client that it admits without it |
| LimiterSweep.SweepsAreInvisible | apps/console/server/stand-server.ts:2060-2061 | As long as the limiter without sweeps evicts nothing, sweeps never change an answer, wherever and however often they fall |
| LimiterSweep.FewClientsNeverNotice | apps/console/server/stand-server.ts:2055-2088 | At most maxClients different clients never notice a sweep |
| ClientKey.SpellingHasOneKey | apps/console/server/stand-server.ts:2045-2053 | Every hexadecimal spelling of an IPv6 address, full or compressed, in any case, with leading zeros or brackets or not, gets the key of its first four groups |
| ClientKey.SameKeySameNetwork | apps/console/server/stand-server.ts:2045-2053 | Two such addresses share a key exactly when their first four groups are equal |
| ClientKey.NetworkKeyInjective | apps/console/server/stand-server.ts:2045-2053 | Different networks have different keys |
| ClientKey.MappedSharesTheKey | apps/console/server/stand-server.ts:2045-2047 | An IPv4 address counts as a whole, and under the same key inside an IPv6 address, in whatever case and with or without brackets |
| ChannelPort.Sku | packages/amazon-adapter/src/planning.ts:9-12 | The SKU of an identity if it has one of 1 to 40 characters |
| Planning.Validate | packages/amazon-adapter/src/planning.ts:14-37 | No error exactly for writes that meet every requirement; otherwise the error of the first check that fails |
| Planning.ErrorsAre | packages/amazon-adapter/src/planning.ts:14-37 | UNSUPPORTED exactly for the channel minimum, PRECONDITION_FAILED exactly for a write that fits its store but not the account, VALIDATION for every other invalid write |
| Planning.Screen | packages/amazon-adapter/src/planning.ts:51-57 | Valid writes and rejections, in order |
| Planning.FindNewest | packages/amazon-adapter/src/planning.ts:58-62 | The Map from each scope to its newest write, first among equal versions |
| Planning.Select | packages/amazon-adapter/src/planning.ts:58-70 | The newest write of each scope is selected, the others are rejected as duplicate or stale |
| Planning.GroupPrices | packages/amazon-adapter/src/planning.ts:71-87 | Quantities and colliding prices go alone, other prices are grouped by SKU |
| Planning.PlanDispatch | packages/amazon-adapter/src/planning.ts:50-90 | The loops compute the specified plan |
| Planning.PlanPartitions | packages/amazon-adapter/src/planning.ts:50-90 | Each id lands in the batches and rejections together exactly as often as it was given |
| Planning.NewestWins | packages/amazon-adapter/src/planning.ts:58-70 | For distinct writes each scope with a valid write has exactly one planned, valid, of the highest valid version and the first of that version; other scopes have none |
| Planning.RejectionReasons | packages/amazon-adapter/src/planning.ts:51-70 | The rejections are exactly the invalid writes with their errors and the valid ones other than the first of the highest version of their scope, DUPLICATE_ACTION at that version and STALE_VERSION below it |
| Planning.BatchShape | packages/amazon-adapter/src/planning.ts:71-88 | Every batch is one quantity, or prices of one SKU for pairwise distinct stores, of valid writes only, and costs two requests |
| Planning.BatchSize | packages/amazon-adapter/src/descriptor.ts:63 | A batch never holds more writes than the account's region has stores, hence never more than declared |
| Planning.ReleaseBatchesHoldOne | packages/amazon-adapter/src/descriptor.ts:7-11 | With the stores of Release 1.0 every batch holds exactly one write |
| Dispatch.IssueFor | packages/amazon-adapter/src/dispatch.ts:146-150 | An error concerns a store exactly when it names it or names none |
| Dispatch.OneSkuAndField | packages/amazon-adapter/src/dispatch.ts:39-43 | The check passes exactly for non-empty batches of one SKU and one field that is not the channel minimum |
| Dispatch.OfferPrices | packages/amazon-adapter/src/dispatch.ts:21-32 | The body holds one price for each item, in order, or cannot be built |
| Dispatch.Filter | packages/amazon-adapter/src/dispatch.ts:89-103 | Writes for offers that the channel prices or bounds are refused, the others are kept in order |
| Dispatch.Submit | packages/amazon-adapter/src/dispatch.ts:111-158 | One outcome for each write that was sent, from the transport's or the channel's answer |
| Dispatch.DispatchAmazon | packages/amazon-adapter/src/dispatch.ts:35-159 | The outcomes and the body that was sent, on every path |
| Dispatch.OneOutcomeEach | packages/amazon-adapter/src/dispatch.ts:77-158 | On every return each write has exactly one outcome |
| Dispatch.OnlyOwnedValuesAreSent | packages/amazon-adapter/src/dispatch.ts:77-113 | The body is about the SKU that was read and holds no price of an offer with a rule or bounds, no quantity that is not the merchant's, and only values of the batch |
| Dispatch.AcceptedIsVerdict | packages/amazon-adapter/src/dispatch.ts:133-153 | An acceptance comes only from the channel's answer to a body that was sent, about the right SKU, with status ACCEPTED and no error for the write's store, under its submission's reference |
| Dispatch.AnswerIsMeant | packages/amazon-adapter/src/dispatch.ts:148-158 | After an answer about the right SKU each write that was sent is ACCEPTED if and only if the submission's status is ACCEPTED and no issue of severity ERROR names its store or no store, and else REJECTED for the first such issue; the writes held back come first, rejected for the rule or the bounds |
| Dispatch.HurdlesReject | packages/amazon-adapter/src/dispatch.ts:35-87 | Each hurdle before the PATCH rejects every write with its own code and sends nothing |
| Dispatch.SentExactlyWhen | packages/amazon-adapter/src/dispatch.ts:35-114 | A PATCH is sent exactly when all hurdles are taken, the write budget allows it, some write is not held back and the stores of the prices are known |
| Dispatch.AcceptedWasSent | packages/amazon-adapter/src/dispatch.ts:148-153 | A write is ACCEPTED only if its own price for its own store, or its own quantity, was in the body |
| Dispatch.OnlyFirstQuantityIsSent | packages/amazon-adapter/src/dispatch.ts:15-20 | Of several quantities only the first is sent, and a channel that accepts makes all accepted |
| Dispatch.TruthfulExactlyWhenUniform | packages/amazon-adapter/src/dispatch.ts:39-43 | For a batch that passes the check, acceptances say the truth whatever the channel answers if and only if its quantities, if it has any, are all the same |
| Dispatch.UnknownExactlyWhenUndecided | packages/amazon-adapter/src/dispatch.ts:117-145 | Writes sent without a decision are OUTCOME_UNKNOWN, all of them, and nothing else ever is |
| Dispatch.PlannedBatchesPass | packages/amazon-adapter/src/planning.ts:71-88 | Every planned batch passes the dispatcher's check, its body can be built, and its acceptances say the truth |
| Dispatch.EveryWriteIsAnsweredOnce | packages/amazon-adapter/src/dispatch.ts:35-159 | Planning and dispatching any writes answers each id, by rejection or outcome, exactly as often as it was given |
| Transport.AccessTokenCache.Get | packages/amazon-client/src/transport.ts:78-81 | A token exactly while it has not expired |
| Transport.AccessTokenCache.Set | packages/amazon-client/src/transport.ts:82 | The token of the key and nothing else changes |
| Transport.AccessTokenCache.Drop | packages/amazon-client/src/transport.ts:83 | The token of the key goes and nothing else |
| Transport.SpApiClient.AccessToken | packages/amazon-client/src/transport.ts:134-160 | A cached token that is still good, or a new one that is then cached with its early end |
| Transport.SpApiClient.Request | packages/amazon-client/src/transport.ts:163-219 | Result, sends, pauses and cache are those of the specification, attempt by attempt |
| Transport.SendsAreBounded | packages/amazon-client/src/transport.ts:169-213 | At most max(1, maxAttempts) + 1 sends, numbered in order; each but the last was retried for a reason, at most one for its token, and that one with a token just issued |
| Transport.BoundIsExact | packages/amazon-client/src/transport.ts:200-213 | maxAttempts + 1 bounds the sends of every call exactly for policies of at least one attempt |
| Transport.RetriesAreExact | packages/amazon-client/src/transport.ts:163-219 | A call sends again exactly as long as its answers let it go on: a refused token once, 429 unless forbidden and an undecided answer of an idempotent call while attempts are left, after pauses doubled up to the limit; and its result is what the last answer means, or the failure to get a token |
| Transport.TokenIsUsedUntilItsEnd | packages/amazon-client/src/transport.ts:134-160 | An issued token is used by its own key without another request exactly until a minute before its end or until it is dropped |
| Transport.UnknownKeyAsks | packages/amazon-client/src/transport.ts:134-160 | A key without a token asks for one and gets what is issued or the failure by its kind; a failed request leaves the cache as it is |
| Transport.AtMostOneProcessed | packages/amazon-client/src/transport.ts:199-213 | In a non-idempotent call every send but the last was answered 429, 401 or 403; with noThrottleRetry nothing is sent after a 429 |
| Transport.ResultTellsTheTruth | packages/amazon-client/src/transport.ts:193-217 | The result lists exactly the sends; success is the last answer; a failure without outcomeUnknown of a non-idempotent call left no send undecided |
| Transport.PausesAreBounded | packages/amazon-client/src/transport.ts:97-99 | Pauses never shrink, never exceed maxDelayMs and are fewer than the attempts |
| WritePath.WrittenAtMostOnce | packages/amazon-adapter/src/dispatch.ts:111-114 | However often the transport sends a PATCH, at most one send can have been processed, and that is the last |
| WritePath.UnknownIsExact | packages/amazon-client/src/transport.ts:209-217 | A failed call that is not idempotent says outcomeUnknown exactly when some send can have been processed |
| WritePath.FailedPatchIsReportedRight | packages/amazon-adapter/src/dispatch.ts:117-126 | For a failed PATCH the writes are OUTCOME_UNKNOWN exactly when some send can have been processed, and REJECTED otherwise |
| TenantWorlds.FingerprintIsExact | apps/console/server/tenant-worlds.ts:115 | The order of the memberships never changes the fingerprint; anything else does, if ids and roles hold no separator |
| TenantWorlds.SeparatorsCollide | apps/console/server/tenant-worlds.ts:115 | With a separator in an id, different memberships share a fingerprint |
| TenantWorlds.WorldIndex.Store | apps/console/server/tenant-worlds.ts:119-130 | The new entry replaces the user's old ones in both caches and goes to the cache of its kind, evicting its first entry only when it is full |
| TenantWorlds.WorldIndex.WorldsFor | apps/console/server/tenant-worlds.ts:114-131 | A call answers from the cache and changes nothing, or answers with its query and stores it after whatever ran meanwhile |
| TenantWorlds.RunKeeps | apps/console/server/tenant-worlds.ts:114-131 | In every interleaving a user is in one cache at most and once there, `cache` holds only non-empty lists, `emptyCache` only empty ones, both within their limits, each entry from the last query of its user |
| TenantWorlds.HitsAreFresh | apps/console/server/tenant-worlds.ts:115-117 | A list given without a query is that of the user's last completed query, made with the same fingerprint, hence the same memberships if free of separators, at most 60 s before |
| TenantWorlds.HitsExactlyWhenFresh | apps/console/server/tenant-worlds.ts:116-117 | A call is answered without a query exactly when a cache holds an entry of the user with its fingerprint, at most 60 s old, and then with the rows of that entry |
| TenantWorlds.StoredIsFound | apps/console/server/tenant-worlds.ts:119-131 | What a query gave is found by the user's next call with the same memberships within 60 s |
| TenantWorlds.EvictsOnlyItsKind | apps/console/server/tenant-worlds.ts:122-130 | A user with no worlds never evicts one who has some nor the other way; what is evicted is the first entry of a full cache |
| ShadowDigest.Digest.Record | packages/pricing-store-pg/src/shadow.ts:452-466 | A row is made if there is none, and the answer says whether it was delivered |
| ShadowDigest.Digest.SendLetter | packages/alert-delivery/src/shadow-digest.ts:96-100 | The letter and then its mark, with what a failure or crash in either leaves |
| ShadowDigest.Digest.Send | packages/alert-delivery/src/shadow-digest.ts:61-112 | One run over its targets, with failures and crashes at every await |
| ShadowDigest.LettersOfAPeriod | packages/alert-delivery/src/shadow-digest.ts:83-109 | Over any runs the letters of a period are the gaps between letter and mark plus one if it is delivered |
| ShadowDigest.GapIsAMishap | packages/alert-delivery/src/shadow-digest.ts:96-109 | A gap arises only from a failure or crash between a letter and its mark |
| ShadowDigest.NeverMailedAgain | packages/alert-delivery/src/shadow-digest.ts:83-88 | A period marked delivered is never mailed again, whatever runs follow |
| ShadowDigest.CompletedRunAddsUp | packages/alert-delivery/src/shadow-digest.ts:61-112 | In a completed run each of the five counters is the number of targets of its kind: quiet, without an address, already marked when its turn came, mailed and marked, or failed; they add up to the targets |
| ShadowDigest.CompletesExactlyWhen | packages/alert-delivery/src/shadow-digest.ts:61-112 | A run gets through its targets exactly when each survives its awaits: the record returns, nothing dies, and what fails is written down |
| ShadowDigest.OneTarget | packages/alert-delivery/src/shadow-digest.ts:83-109 | What one target does to its row and to no other: made, marked and counted by its awaits |
| ShadowDigest.CleanRunDelivers | packages/alert-delivery/src/shadow-digest.ts:78-93 | A run without mishap leaves every target with something to say and an address delivered, also after earlier failures |
| Orders.DemoOrderLines | apps/console/server/demo-us.ts:114-129 | The lines of exactly the orders that exist and were placed or changed since, in order |
| Orders.WindowHas | apps/console/server/demo-us.ts:117-127 | A line is in the window exactly when it is that of an existing order placed or changed since |
| Orders.LifeOfAnOrder | apps/console/server/demo-us.ts:117-121 | An order is placed every ten minutes; every tenth is cancelled after 20 minutes, the others shipped after an hour, and open before |
| Orders.RefsAreDistinct | apps/console/server/demo-us.ts:123-125 | No two orders share a reference |
| Orders.OrderSync.SyncOrders | apps/console/server/demo-us.ts:401-406 | One poll takes the window's lines, and only a complete one moves the start of the next window |
| Orders.RunTracks | apps/console/server/demo-us.ts:398-406 | After any polls, some failed half way, what is known of an order was true at some time since the last complete read |
| Orders.WindowsAddUp | apps/console/server/demo-us.ts:114-129 | A complete poll leaves exactly the orders placed so far, each with its one reference, its one SKU and its current status |
| CompetitorHistory.AmountsComeBack | packages/analytics-export/src/competitor-history.ts:89-136 | Every offer has its own place in all parallel columns and comes back in the same order with its own amounts in the row's money; shipping that is not known stays unknown, never zero, and leaves no total; the class of data is that of the channel |
| CompetitorHistory.BuyboxOfRow | packages/analytics-export/src/competitor-history.ts:98-112 | The Buy Box of a row: its own price and shipping, or the shipping of the first offer that holds it |
| CompetitorHistory.HasRowExactlyWhen | packages/analytics-export/src/competitor-history.ts:92-98 | A snapshot has a row exactly when its first price names a currency or, without any price, its store is known with currency and basis |
| CompetitorHistory.EncodingAgain | packages/analytics-export/src/competitor-history.ts:89-164 | Encoding, decoding and encoding again never throws and gives the same row if and only if the condition of `Retracts` holds |
| CompetitorHistory.NormalFormsComeBack | packages/analytics-export/src/competitor-history.ts:127-164 | A snapshot comes back unchanged if and only if it is in normal form |
| MinorUnits.ReadsExactly | packages/amazon-adapter/src/mapping.ts:12-20 | decimalToMinor gives n exactly when the trimmed text is a plain decimal of at most 15 integer digits whose value is n hundredths, and n is safe: it never rounds |
| MinorUnits.PrintedReadsBack | packages/amazon-adapter/src/mapping.ts:39-41 | The digits that minorToDecimal prints, with trailing zeros or without, read back for every safe amount from zero on |
| MinorUnits.ReadsBackExactly | packages/amazon-adapter/src/mapping.ts:39-41 | Which amounts read back: exactly those from zero on; from -99 to -1 the sign is lost |
| ReadBack.MerchantQuantity | packages/amazon-adapter/src/mapping.ts:93-96 | A quantity is read only from a DEFAULT entry |
| ReadBack.QuantityReadings | packages/amazon-adapter/src/readback.ts:73-87 | A quantity is that of the first DEFAULT entry if it is a safe integer from zero on; without such an entry a listing with another fulfilment is not ours to confirm, and anything else is no data |
| ReadBack.PriceReadings | packages/amazon-adapter/src/readback.ts:54-72 | Nothing is read of an offer that the channel prices or bounds; else the price it shows, in its currency or the store's, or NOT_FOUND |
| ReadBack.GroupRequests | packages/amazon-adapter/src/readback.ts:23-29 | Requests without a SKU or store fail, the others are grouped by SKU in order |
| ReadBack.ReadGroup | packages/amazon-adapter/src/readback.ts:31-91 | Each request of a SKU gets its own observation or failure, in order |
| ReadBack.ReadBackAmazon | packages/amazon-adapter/src/readback.ts:17-93 | The loops compute the specified observations and failures |
| ReadBack.OneAnswerEach | packages/amazon-adapter/src/readback.ts:17-93 | Every request yields exactly one observation or failure, the one it gets when read alone |
| ReadBack.ReadAlone | packages/amazon-adapter/src/readback.ts:17-93 | A request that is read alone gets its own answer |
| ReadBack.ConfirmAmazon | packages/amazon-adapter/src/readback.ts:113-131 | One answer for each request, in order, under its own id and from its own read: APPLIED exactly for an equal value, PENDING exactly for another one before dispatchedAt plus the window, with the next check a minute on or at its end, NOT_APPLIED exactly from then on, UNKNOWN with the read's error |
| ReadBack.ObservationIsOwn | packages/amazon-adapter/src/readback.ts:117-123 | What is judged was read from a listing of the request's own SKU, for its own store and field |
| ReadBack.TellsExactlyInStoreCurrency | packages/amazon-adapter/src/readback.ts:121-123 | For every value expected in the store's money, APPLIED is answered exactly when the listing shows that value, if and only if the offer of the store names no currency or the store's |
| ReadBack.PlannedWriteIsConfirmedRight | packages/amazon-adapter/src/readback.ts:113-131 | A write that the planner accepts can be read back, and for such an offer is APPLIED exactly when the listing shows its value |
| ReadBack.AnotherCurrencyIsApplied | packages/amazon-adapter/src/readback.ts:121-123 | A price in another currency with as many minor units is APPLIED |
| ReadBack.WrittenPriceIsConfirmed | packages/amazon-adapter/src/readback.ts:113-131 | An offer that shows the price the dispatcher printed is confirmed as APPLIED |
| ReadBack.PendingIsBounded | packages/amazon-adapter/src/readback.ts:124-128 | A caller that waits for checkAfter and whose reads succeed is told PENDING at most ceil(window / 60000) times |

## Left out

- Floating point: tokens, rates and percentages are reals, money and times integers; `Number(text)` and the printing of JSON numbers are taken as exact.
- Message parsing: `parseEnvelope` and `handleInbound` are not part of this model; a message carries its parse result and whether its checksum matches, a delivery what the adapter makes of it.
- LedgerSink.CommitIsADelivery: the join of the two systems of steps is by this lemma, not by one run of both; a call of the sink is taken to deliver at the commit that decides it. Which accounts exist does not change during a run; a failed insert is a rollback or a stop; what a transaction writes beside the entry is one item.
- ReceiverProtocol.SinkMay: a delivery that does not meet it (nothing to record the entry with) is outside ReceiverSafety.AtMostOnce; what is then fetched or accepted again is not guarded by the source either.
- Queue retention, the dead-letter queue and the endless `run` loop of the receiver.
- Clocks that go back: both limiters, the orders and the pending bound assume a clock that does not. The answers of the worlds' caches do not need it.
- Values outside the declared types: a stored timestamp or dispatch time that is not a number, an outside load below zero.
- `String.toLowerCase` outside ASCII.
- `createRateLimiter`: the key is a pair instead of the text `auth|address`, and the timer's period is left open, since a sweep may come at any time.
- Batch ids (a hash), log lines, alerts' texts and error messages; an error is its code.
- Object identity: two writes with equal fields are told apart by a `reference` number; a batch holds the writes themselves.
- Dispatch: `classifyFailure` is an input (the error of a failed call); the deadline and both budgets answer as the environment chooses.
- Transport: request headers, URLs and bodies; the wait itself; that `maxAttempts` might be a fraction.
- Tenant worlds: assembling a world, counters and the demo; a second completion of the same call, which the model admits and the code does not make.
- Shadow digest: the letter's text, locale and time zone; two runs at the same time, for which the row gives no exclusion; a log function that throws.
- Orders: the stock pipeline behind `syncOrders`; taking a line means remembering its latest status.
- Competitor history: the normalisation of instants is a parameter, and the SQL around the rows is not part of this model.
- Read-back: liveness, listing status and effective price of an observation.
- MinorUnits.PrintedReadsBack: speaks of the digits in decimal, up to the largest safe integer; that a binary number prints them again is taken as given.
