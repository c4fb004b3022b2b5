# BomiPay core model

A Dafny model of the stateful core of the BomiPay payment back end, with proofs of what its parts
promise. `dafny verify dfyconfig.toml` checks everything. Nothing was executed: the only claims
are those the verifier proves.

| file | what it models |
|---|---|
| `Notifications.dfy`, `NotificationRows.dfy` | notification delivery: conditional claim, send, exponential back-off, and a reader, as a protocol of any number of workers |
| `SlidingWindow.dfy`, `RateLimit.dfy`, `RequestLimits.dfy` | the sliding-window rate limiter against the full request history |
| `Ledger.dfy`, `LedgerBalances.dfy`, `LedgerRequests.dfy` | double-entry posting under idempotency keys, and what journals conserve |
| `Outages.dfy`, `Sorting.dfy` | hourly buckets and the detector of outage windows |
| `CacheKeys.dfy`, `Cache.dfy` | cache keys and patterns, and the cache over a Redis that may fail at any command |
| `ProviderFetch.dfy` | retrying requests under a page loop, for any schedule of faults |
| `BankStatement.dfy`, `StatementMatching.dfy` | deduplicating statement import, and reconciliation |
| `Settlements.dfy`, `SettlementHistory.dfy`, `Events.dfy`, `EventEffects.dfy` | the two writers of settlements, the summary, event handlers and replay |
| `MoneyAtRisk.dfy`, `RiskTerms.dfy`, `Projection.dfy` | exposure, risk score and clearing projection |
| `Alerts.dfy` | alert deduplication |
| `GroupedSums.dfy`, `Common.dfy` | sums by group, and shared datatypes |

Conventions. Tables are sequences or maps and an id is a row's position. `now`, uuids, adapter
outcomes, Redis failures, HTTP replies and the row that an unordered query happens to return are
parameters or free choices, so theorems hold for all of them. A select followed by a write in one
method is one atomic step, except in notification delivery, where the claim and the completion
are separate steps that anything may come between. Each imperative class or method is proved
equal to a function on values, and the theorems about runs use that same function. What those
functions compute is pinned down in the terms of the inputs themselves: rows against the log of
what happened, limits on hosts, paths and seconds, journals against request lines, replies by
status code, matches by the transactions' own columns.

Where the code and its own comments differ, the model follows the code:

- The account balance joins on the account in the entry's header, so it is always net zero; the
  balance per line code is a separate function (`LedgerBalances`).
- A single dead hour has duration zero and is not reported; "consecutive" means adjacent among
  the hours that had transactions (`Outages`).
- A missing bank reference is hashed as the text "None" (`BankStatement`), and an entry without
  reference and amount matches any transaction of its merchant and currency.
- `.first()` without an order may return a resolved alert although an active one exists (`Alerts`).
- The empty idempotency key skips the look-up but not the unique index: a second one is refused.
- A settlement written by an event has no minor amount, so the summary counts it as zero.
- The statement hash covers neither balance nor counterparty nor bank account, so rows that differ
  only there count as duplicates.
- The look-up of an idempotency key does not ask for the merchant.
- Timeouts and rate-limit replies are marked retryable but are not retried (`ProviderFetch`).

## Model

| member | source | states |
|---|---|---|
| Notifications.Notification.MarkAsRead | src/bomipay/services/notification.py:84-89 | Only the status changes, to read, whatever it was. |
| Notifications.Notification.ScheduleRetry | src/bomipay/services/notification.py:148-173 | The row after a failed send: one more failure, and either a retry 30*2^(failures-1) seconds after the claim or, at the fifth failure, abandonment with no retry time. |
| Notifications.Notification.Finish | src/bomipay/services/notification.py:121-146 | The row after the adapter returned (sent, with its response and message id, error and retry time cleared), raised (rescheduled or abandoned), or returned and writing the row raised (rescheduled although delivered). |
| Notifications.NotificationService.CreateNotification | src/bomipay/services/notification.py:21-65 | A used non-empty delivery key gives back the existing row and adds nothing; otherwise one row is added, unread for the in-app channel and pending for others. |
| Notifications.NotificationService.Claim | src/bomipay/services/notification.py:105-115 | The conditional UPDATE: it claims exactly the rows in a claimable status whose retry time has come, and changes no other row. |
| Notifications.NotificationService.AttemptDelivery | src/bomipay/services/notification.py:104-146 | A full attempt without interference: nothing at all happens to a row that cannot be claimed. |
| Notifications.AttemptIsTwoSteps | src/bomipay/services/notification.py:104-146 | The service's attempt is the claim and the completion of the multi-worker machine run back to back. |
| Notifications.DeliverySafety | src/bomipay/services/notification.py:84-173 | For every interleaving of creators, workers and readers: no two workers hold a notification, at most five sends begin, at most one is recorded as successful, the e-mails that went out are that one and those whose recording failed, and in-app notifications are never claimed. |
| Notifications.SentTwice | src/bomipay/services/notification.py:121-138 | Two e-mails of one notification do go out in a run in which recording the first one fails. |
| Notifications.BackoffSpacing | src/bomipay/services/notification.py:148-163 | In every run the claims of a notification are 30, 60, 120 and 240 seconds apart or more, so a fifth comes at least 450 seconds after the first. No assumption on the workers' clocks. |
| NotificationRows.RowTellsItsLog | src/bomipay/services/notification.py:104-173 | In every run a row's attempt time, error, sent time, response and message id are those of its last claim, last completion and last e-mail out; a sent row was sent in its last attempt and has no error and no retry time. |
| NotificationRows.RetryDueExactly | src/bomipay/services/notification.py:105-112 | A row that waits for its retry has failed one to four times and can be claimed exactly from 30, 60, 120 or 240 seconds after its last claim on; an abandoned one has failed five times. |
| NotificationRows.ClaimTakesIff | src/bomipay/services/notification.py:105-115 | A free worker's claim takes effect if and only if the row exists, is pending, waiting for its retry or failed, and has no retry time or one that has come. |
| NotificationRows.CreationAddsIff | src/bomipay/services/notification.py:32-65 | A request adds a row if and only if its key is missing, empty or unknown for its merchant; the answer is a row of that merchant and key. |
| NotificationRows.RowsComeFromRequests | src/bomipay/services/notification.py:32-56 | Every row carries merchant, channel and key of a request, and is read only if a reader marked it. |
| NotificationRows.MarkReadChangesStatusOnly | src/bomipay/services/notification.py:84-89 | Marking a row read changes nothing else in the row and no other row. |
| Notifications.DeliveryEnds | src/bomipay/services/notification.py:104-173 | A run holds at most ten claims and completions of a notification. Its delivery is over (settled, and held by no worker) if and only if no continuation adds one, which is so after ten; and an end can be reached from every state of every run. |
| Notifications.TerminalStays | src/bomipay/services/notification.py:106-111 | Once the delivery is over it stays over, whatever creators, workers and readers do: no claim, no completion, and no read mark lost. |
| Notifications.DeliveryCanStep | src/bomipay/services/notification.py:106-115 | As long as it is not over, a completion by its holder or a claim at its due time is possible and counts. |
| Notifications.DeliveryKeysUnique | src/bomipay/services/notification.py:32-35 | In every run a merchant's non-empty delivery key names at most one notification. |
| Notifications.CreateIsIdempotent | src/bomipay/services/notification.py:32-56 | Creating twice under one key gives the same id and the same table as creating once, even with another channel. |
| Notifications.ReadMarkSurvives | src/bomipay/services/notification.py:84-89 | A read mark survives every continuation if and only if no worker held the notification when it was there; otherwise the completion overwrites it. A mark beside a held row needs a committed claim. |
| Notifications.ReadMarkSurvivesIffNotSending | src/bomipay/services/notification.py:84-89 | The same by what the reader can see: a mark set on a row that is not read yet survives every continuation if and only if the row's status was not sending. |
| Notifications.ReadMarkLost | src/bomipay/services/notification.py:121-163 | A run in which a notification marked read is rescheduled and sent again; it needs a caller that commits the claim before the send, since within one transaction the row lock keeps the reader out. |
| RateLimit.SuffixCases | src/bomipay/middleware/rate_limit.py:26-38 | Suffix and limit of a path are those of the first of the three prefixes, in their order, that the path starts with: 10, 100 or 20 a minute, else 200. |
| RateLimit.EqualKeysEqualLimits | src/bomipay/middleware/rate_limit.py:49-55 | Equal bucket keys mean equal host, equal prefix and equal limit, whatever characters the host contains. |
| RateLimit.RateLimiter.Dispatch | src/bomipay/middleware/rate_limit.py:57-77 | One request: eviction, the decision, and the bucket's new times; no other bucket changes. |
| SlidingWindow.PruningIsInvisible | src/bomipay/middleware/rate_limit.py:63-76 | What the pruned bucket holds beyond a cutoff is what the bucket's full acceptance history holds beyond it. |
| SlidingWindow.LimiterRefinesIdeal | src/bomipay/middleware/rate_limit.py:57-77 | Every decision equals that of the rule that counts the bucket's acceptances in (now - window, now] over the full history. |
| RateLimit.MiddlewareRefinesFullHistory | src/bomipay/middleware/rate_limit.py:57-77 | The same for the middleware's requests, for every history with a clock that does not go back. |
| SlidingWindow.NoWindowOverflows | src/bomipay/middleware/rate_limit.py:57-77 | No half-open interval as long as the window, wherever it starts, holds more acceptances of a bucket than its limit. |
| SlidingWindow.ClosedIntervalsHoldIff | src/bomipay/middleware/rate_limit.py:65-76 | Closed intervals of the window's length respect the limit too, wherever they start, if and only if no two acceptances that stand as many places apart as the limit are exactly one window apart. |
| RateLimit.LimitHoldsInEveryWindow | src/bomipay/middleware/rate_limit.py:57-77 | No bucket lets more through than its path's limit in any window. |
| RequestLimits.SameBucketIff | src/bomipay/middleware/rate_limit.py:49-55 | Two requests share a bucket if and only if they come from one client and go to one of the four zones, clients without a host counting as one. |
| RequestLimits.MiddlewareFollowsRule | src/bomipay/middleware/rate_limit.py:57-77 | Over every history the middleware accepts a request if and only if fewer than 10, 100, 20 or 200 of the client's requests to the zone were accepted in the sixty seconds up to it; stated on hosts, paths and times alone. |
| RequestLimits.NextDispatchFollowsRule | src/bomipay/middleware/rate_limit.py:57-77 | The same for one more dispatch on the store that a history left. |
| RequestLimits.NoMinuteOverflows | src/bomipay/middleware/rate_limit.py:3-8 | In no minute, wherever it starts, are more of a client's requests to a zone accepted than documented. |
| SlidingWindow.ClosedIntervalMayHoldMore | src/bomipay/middleware/rate_limit.py:65-66 | Such acceptances occur: under a limit of one, two exactly one window apart both pass. |
| SlidingWindow.BucketsAreIndependent | src/bomipay/middleware/rate_limit.py:49-76 | In any interleaving a bucket's decisions and times equal those of serving its own requests alone. |
| Ledger.LedgerService.GetOrCreateAccount | src/bomipay/services/ledger.py:26-53 | Returns an account of the merchant and code; the table gains one only if it had none. |
| Ledger.OpeningIsIdempotent | src/bomipay/services/ledger.py:27-53 | Opening keeps one account per merchant and code, keeps all accounts, and a second opening changes nothing. |
| Ledger.LedgerService.PostJournalEntry | src/bomipay/services/ledger.py:56-148 | The result (entry, original entry, or the first error in the order of the checks) and the journal afterwards: one entry more, or unchanged. |
| Ledger.LedgerService.RecordFee | src/bomipay/services/ledger.py:191-213 | A non-positive fee is refused and nothing stored; otherwise exactly that fee is appended. |
| Ledger.JournalIsFirsts | src/bomipay/services/ledger.py:81-148 | After any stream of requests the journal holds exactly one entry for each unkeyed valid request and each first valid request of a key, in order. |
| LedgerRequests.ValidationIsExact | src/bomipay/services/ledger.py:92-116 | A request is valid if and only if it has two lines or more, all with a side and a positive amount, and debits equal credits; otherwise the error is the first complaint in the order of the checks. |
| LedgerRequests.JournalRecordsRequests | src/bomipay/services/ledger.py:118-139 | The i-th entry has merchant, account, description and key of the i-th request that counts, and line by line its codes, amounts and sides. |
| LedgerRequests.NewEntryIsReturned | src/bomipay/services/ledger.py:118-148 | A valid request whose key is unused is answered with the entry it adds, which records it. |
| Ledger.RetriesAreInvisible | src/bomipay/services/ledger.py:81-118 | A stream with repeats and invalid requests anywhere leaves the same journal as its counting requests alone. |
| Ledger.DuplicateReturnsOriginal | src/bomipay/services/ledger.py:81-90 | Posting again under a used non-empty key returns the first valid request's entry, even if the new request is invalid, and changes nothing; a used empty key is refused. |
| Ledger.KeyIgnoresMerchant | src/bomipay/services/ledger.py:82-90 | Look-up and unique index ignore the merchant: a used key gives its caller an entry of the caller's own merchant if and only if the first valid request under it was that merchant's; nothing is stored either way. |
| Ledger.AnotherMerchantsEntry | src/bomipay/services/ledger.py:82-90 | A valid request that is answered with another merchant's entry and not stored. |
| LedgerBalances.ReachableSound | src/bomipay/services/ledger.py:92-116 | In every reachable journal each entry has two or more positive debit or credit lines, balances, and no key occurs twice. |
| LedgerBalances.JournalOnlyGrows | src/bomipay/services/ledger.py:118-139 | Earlier journals are prefixes of later ones. |
| LedgerBalances.AccountsNetToZero | src/bomipay/services/ledger.py:151-188 | The balance reported for any account is always net zero, because the query sums whole entries of the account in the header. |
| LedgerRequests.AccountTotals | src/bomipay/services/ledger.py:151-188 | The reported totals of an account are the debits and credits of all lines of the counting requests that name it in their header, whatever codes the lines carry. |
| LedgerBalances.TrialBalance | src/bomipay/services/ledger.py:100-116 | Over any duplicate-free list of a merchant's account codes the balances per line code add up to zero. |
| LedgerBalances.BalanceCountsOnce | src/bomipay/services/ledger.py:81-139 | The balance of a code is the sum of the amounts that the counting requests' own lines give to that code, debit positive and credit negative, each request once however often it was retried. |
| Outages.CountByHour | src/bomipay/services/provider_health.py:301-307 | The hourly buckets hold the number of transactions and of successes of each observed hour. |
| Outages.VisitHour | src/bomipay/services/provider_health.py:311-331 | One step of the pass: a dead hour opens or extends the current outage, another one closes it. |
| Outages.FindWindows | src/bomipay/services/provider_health.py:309-343 | The pass over sorted hours equals the specification's fold over them. |
| Outages.DetectOutageWindows | src/bomipay/services/provider_health.py:278-343 | The detector's result is a function of the observed and the dead hours. |
| Outages.DetectionIsExact | src/bomipay/services/provider_health.py:309-343 | The windows are exactly the maximal runs of dead observed hours spanning at least one hour, ascending and disjoint. |
| Outages.HoursInSeconds | src/bomipay/services/provider_health.py:301-307 | An hour is observed if and only if a transaction was created within its 3600 seconds, and dead if and only if none of those succeeded. |
| Outages.ReportedIff | src/bomipay/services/provider_health.py:310-327 | An hour is reported if and only if everything from it to another observed hour is dead; an isolated dead hour never is, despite the docstring. |
| Outages.OrderDoesNotMatter | src/bomipay/services/provider_health.py:301-311 | Any permutation of the transactions gives the same windows. |
| Outages.BucketsConserve | src/bomipay/services/provider_health.py:301-307 | Bucket totals and successes add up to the transactions and their successes. |
| CacheKeys.KeyRoundTrip | src/bomipay/services/cache_layer.py:68-72 | Splitting a key at colons gives its parts back if and only if no part contains a colon. |
| CacheKeys.NamespaceOfKey | src/bomipay/services/cache_layer.py:68-72 | The namespace can be read off any key. |
| CacheKeys.PrefixGlob | src/bomipay/services/cache_layer.py:189-190 | A literal prefix followed by a star matches exactly the strings with that prefix. |
| CacheKeys.StarGlob | src/bomipay/services/cache_layer.py:189-190 | A star stands for any text, the empty one included. |
| Cache.CacheLayer.Get | src/bomipay/services/cache_layer.py:74-89 | A live value if Redis answers; null on a miss, an expired slot or any failure. |
| Cache.CacheLayer.Set | src/bomipay/services/cache_layer.py:91-103 | The slot and its expiry, for every failure mode including a lost reply; a non-positive time-to-live stores nothing. |
| Cache.CacheLayer.Delete | src/bomipay/services/cache_layer.py:105-116 | The key is gone if the command executed; true is returned only then. |
| Cache.CacheLayer.DeletePattern | src/bomipay/services/cache_layer.py:118-131 | Deletes the live keys that match, in two commands that can each fail. |
| Cache.CacheLayer.GetOrCompute | src/bomipay/services/cache_layer.py:133-162 | Returns the hit, or else the value computed in this call and stored if Redis permits; failures never reach the caller. |
| Cache.CacheLayer.InvalidateProviderHealth | src/bomipay/services/cache_layer.py:186-190 | When both commands succeed, no key of the pattern is live any more; keys outside it are untouched. |
| Cache.StoreIsLatestWrites | src/bomipay/services/cache_layer.py:91-116 | After any commands of any clients, a key is present exactly when it has a latest write that nothing removed, and holds that write's value and expiry. |
| Cache.BoundedStaleness | src/bomipay/services/cache_layer.py:74-103 | A hit is the value of the latest write to the key, less than its time-to-live old and not removed since. |
| Cache.AnswerIsComputedOrFresh | src/bomipay/services/cache_layer.py:133-162 | A look-up with computation returns the value computed in that call or a latest write as fresh as that: always the former without Redis, always the latter when such a write exists and Redis answers. |
| Cache.ComputedIsServed | src/bomipay/services/cache_layer.py:133-162 | What was computed and stored is served until its time-to-live is over, and not longer. |
| Cache.LatestWriteIsServed | src/bomipay/services/cache_layer.py:74-89 | Conversely, a latest write within its time-to-live is served whenever Redis answers. |
| Cache.DeleteTakesEffect | src/bomipay/services/cache_layer.py:105-116 | After an executed delete the key misses until it is written again. |
| Cache.ViewsExpireOnTime | src/bomipay/services/cache_layer.py:27-30 | A cached health, dashboard, sync or reconciliation view is never served at or past its own time-to-live, whatever characters the identifiers contain. |
| Cache.TwoPartViewTexts | src/bomipay/services/cache_layer.py:27-29 | Key text and seconds to live of the cached health and sync views. |
| Cache.MerchantViewTexts | src/bomipay/services/cache_layer.py:28-30 | The same for the dashboard and reconciliation views. |
| Cache.ViewKeysEqualIff | src/bomipay/services/cache_layer.py:68-72 | Two views share a key if and only if their namespaces and their joined identifiers agree, whatever characters these contain. |
| Cache.ViewKeysDiffer | src/bomipay/services/cache_layer.py:164-299 | So different views with colon-free identifiers have different keys. |
| Cache.HealthPatternIsExact | src/bomipay/services/cache_layer.py:186-190 | For a merchant without wildcards the health invalidator selects exactly the health views whose joined identifiers start with the merchant and a colon; without colons in merchants, exactly the merchant's own. |
| Cache.HealthPatternSelects | src/bomipay/services/cache_layer.py:186-190 | What it selects for merchants with wildcards. |
| Cache.InvalidationHitsAnotherMerchant | src/bomipay/services/cache_layer.py:186-190 | With a colon in a merchant id, another merchant's invalidation deletes its cached health. |
| ProviderFetch.JudgeIsExact | src/bomipay/services/provider_adapters_async.py:87-139 | The checks on a reply retry exactly network errors and statuses of 500 or more, answer exactly with the body of a 2xx JSON response, and raise everything else at once, each with its error. |
| ProviderFetch.RequestIsExact | src/bomipay/services/provider_adapters_async.py:67-141 | One call makes up to three requests, each but the last met by a network or server error, and returns the last one's answer or raises its error. |
| ProviderFetch.PaystackAdapter.RequestWithRetry | src/bomipay/services/provider_adapters_async.py:67-141 | Result and number of requests of one call, at most three; it sleeps 0, 1 or 3 seconds for one, two or three requests. |
| ProviderFetch.PaystackAdapter.FetchTransactions | src/bomipay/services/paystack_adapter_new.py:37-79 | The page loop equals the specification's recursion over pages for any replies, whatever page counts and data the answers carry, as long as the counts have a bound; it terminates. |
| ProviderFetch.PaystackAdapter.FetchSettlements | src/bomipay/services/paystack_adapter_new.py:85-128 | The same for settlements, where a refused page ends the list quietly. |
| ProviderFetch.AllOrNothing | src/bomipay/services/paystack_adapter_new.py:43-79 | For every fault schedule the fetch raises or returns the first pages, as many as reported and at least one, in order; it returns if and only if no reply was fatal or a refusal and no three in a row were network or server errors, makes at most three requests a page, and raises the last request's error. |
| ProviderFetch.NothingMissing | src/bomipay/services/paystack_adapter_new.py:69-79 | If the provider reports at least its number of pages, a returned list is the concatenation of all of them. |
| ProviderFetch.SettlementsStopAtRefusal | src/bomipay/services/paystack_adapter_new.py:111-128 | A list of settlements holds the pages before the refusal; no request before the last one was refused, and the list is complete if and only if the last one was not. |
| ProviderFetch.SettlementsMayBeCutShort | src/bomipay/services/paystack_adapter_new.py:111-116 | A schedule under which the call succeeds with fewer settlements than the provider has and reports. |
| BankStatement.BankStatementService.ProcessImport | src/bomipay/services/bank_statement.py:192-249 | The table, the counters (processed plus failed is total), the numbers of the failed rows and the final status after the row loop. |
| BankStatement.BankStatementService.ProcessXlsxImport | src/bomipay/services/bank_statement.py:262-333 | An unparsable workbook fails the import, stores nothing and sets no counter; otherwise table, counters, failed rows and status are those of the row loop. |
| BankStatement.NormalizeKeepsAll | src/bomipay/services/bank_statement.py:85-157 | A row is normalised if and only if it has description and date, and keeps all its columns. |
| BankStatement.FailedRowsAreExact | src/bomipay/services/bank_statement.py:202-207 | The failed rows are named from one on, in order, exactly where description or date is missing. |
| BankStatement.ImportAddsFileKeys | src/bomipay/services/bank_statement.py:211-238 | Stored entries stay, keys stay unique, and the key set becomes the old keys and the file's, duplicates inside the file included. |
| BankStatement.ReimportAddsNothing | src/bomipay/services/bank_statement.py:211-217 | Importing the same file again, under any import id and even for another bank account of the merchant, changes nothing. |
| BankStatement.ImportOrderDoesNotMatter | src/bomipay/services/bank_statement.py:202-238 | Two files in either order leave the same keys and equally many entries. |
| BankStatement.FirstWins | src/bomipay/services/bank_statement.py:211-237 | Under each key the stored entry stays; otherwise the entry of the file's first row with the key is stored. |
| BankStatement.KeyCollision | src/bomipay/services/bank_statement.py:32-45 | Two rows of a merchant share a key if and only if they agree in date, description, amounts and currency and their references are equal or one is missing and the other the text None; balance and counterparty do not count. |
| BankStatement.RowStoredIff | src/bomipay/services/bank_statement.py:209-238 | A valid row always finds an entry under its key that agrees with it in all that is hashed, stored before or first in the file; the row itself is stored if and only if that entry is the same row, balance and counterparty included, for the same bank account. |
| BankStatement.NoneCollisionDropsARow | src/bomipay/services/bank_statement.py:40-40 | A file of two rows that differ in a missing reference and the text None only; both count as processed, one is stored. |
| BankStatement.BalanceCollisionDropsARow | src/bomipay/services/bank_statement.py:32-45 | The same for two rows that differ in the running balance only. |
| BankStatement.SecondAccountGetsNothing | src/bomipay/services/bank_statement.py:211-237 | A row stored for one bank account of a merchant is never stored for another by importing it there. |
| BankStatement.BankStatementService.ReconcileEntry | src/bomipay/services/bank_statement.py:398-460 | One reconciliation is appended, with a transaction found by the candidate query if and only if there is one. |
| StatementMatching.ReconciledExactly | src/bomipay/services/bank_statement.py:410-457 | A recorded outcome names one of the transactions of the entry's merchant and currency with its reference, or else its amount within seven days, with confidence 9500 or 7500; it names none only if none fits. |
| StatementMatching.TalliesIgnoreOthers | src/bomipay/services/bank_statement.py:410-415 | Transactions of other merchants and in other currencies change no tally. |
| BankStatement.BankStatementService.ReconcileImport | src/bomipay/services/bank_statement.py:463-508 | A missing or foreign import is refused; otherwise matched plus unmatched is total, matched counts the entries with a candidate, and each entry gets one reconciliation, in order. |
| BankStatement.MatchingIsMonotone | src/bomipay/services/bank_statement.py:410-434 | More transactions never lower the matched count. |
| BankStatement.ImportOwnsItsEntries | src/bomipay/services/bank_statement.py:475-489 | Reconciliations of two imports never overlap: an import under a new id owns exactly the entries it added, in order, and leaves those of every other import as they were. |
| BankStatement.ImportOwnsNewKeys | src/bomipay/services/bank_statement.py:211-237 | The total that reconciling a new import reports is the number of the file's keys that were not stored before. |
| BankStatement.ReimportLeavesNothingToReconcile | src/bomipay/services/bank_statement.py:211-217 | Reconciling the second import of a file, even one for another bank account, finds no entry at all, although its rows count as processed. |
| Settlements.SettlementTable.UpsertSettlement | src/bomipay/services/settlement.py:12-65 | The table after an upsert: given fields overwritten, absent optional ones kept, or one new row; it raises only if the reference has several rows. |
| Settlements.TwoWritersOneRow | src/bomipay/services/event_handlers.py:186-202 | However upserts and received events interleave, a merchant's reference has at most one row and no upsert's single-row look-up raises. |
| Settlements.SeveralIff | src/bomipay/services/settlement.py:25-32 | The single-row look-up raises if and only if two rows have merchant and reference. |
| Settlements.RowsFollowLastUpsert | src/bomipay/services/settlement.py:34-47 | A reference has a row exactly when a write named it; its money fields and status are those of the last upsert, never of an event; without an upsert the minor amount is null and the status pending. |
| SettlementHistory.RowsRememberWrites | src/bomipay/services/settlement.py:34-65 | A row keeps the provider of the first write that named it and, of each optional field, the last value an upsert gave since; an event changes nothing of an existing row. |
| Settlements.GetSettlementSummary | src/bomipay/services/settlement.py:86-116 | For any answer of the GROUP BY query, the settled and pending totals are the direct sums over the merchant's rows with nulls as zero. |
| SettlementHistory.SummaryOverTable | src/bomipay/services/settlement.py:88-116 | The totals are the merchant's settled and pending minor amounts over the whole table, and each line has amount and number of the rows of its currency and status. |
| Settlements.SummaryPartitions | src/bomipay/services/settlement.py:88-116 | The summary's lines partition the rows: counts and totals add up to theirs. |
| Settlements.SummaryMissesReceivedOnly | src/bomipay/services/settlement.py:86-116 | After any run of writes the settled total is the sum of the settled rows' amounts, and the pending one falls short by exactly the amounts of the rows no upsert ever named. |
| Events.EventHandlers.HandleTransactionUpdated | src/bomipay/services/event_handlers.py:101-139 | One audit row, and one more failure for the provider and day if the new status is failed. |
| Events.EventHandlers.HandleSettlementReceived | src/bomipay/services/event_handlers.py:157-216 | One audit row, a settlement row unless the reference has one, and the day's money-at-risk row. |
| Events.EventHandlers.HandleDisputeCreated | src/bomipay/services/event_handlers.py:403-427 | One audit row, and the disputed transaction's status if it exists. |
| Events.EventHandlers.HandleEvent | src/bomipay/services/event_handlers.py:528-555 | A handler that raises, and a type without handler, change nothing; no error reaches the caller. |
| Events.EventHandlers.Replay | src/bomipay/services/event_replay.py:45-74 | Dispatches the stored events up to the first unreadable payload, keeps their effects, and returns the count or the position of the unreadable one. |
| Events.ReceiptIsSettlementWrite | src/bomipay/services/event_handlers.py:186-202 | The handler's settlement step is the event write of the settlement table. |
| Events.LogAddsUp | src/bomipay/services/event_handlers.py:110-139 | Over any log, audit rows equal completed dispatches, unconditional inserts happen once per dispatch, and a provider's failure counter of a day grows by exactly its failed updates handled that day. |
| EventEffects.FailuresLeaveNothing | src/bomipay/services/event_handlers.py:528-555 | A dispatch leaves all tables alone if its type has no handler, the database fails or a settlement's time does not parse; otherwise it adds one audit row. |
| EventEffects.ReceiptOfPayload | src/bomipay/services/event_handlers.py:157-216 | A settlement event adds exactly the row its payload describes, under the payload's reference, else the aggregate id, else a new uuid, unless that reference has a row; and it marks the day. |
| EventEffects.DailyRows | src/bomipay/services/event_handlers.py:113-139 | Which provider rows of a day a dispatch makes sure of, and that only a failed update counts there. |
| EventEffects.InsertsAddUp | src/bomipay/services/event_handlers.py:74-90 | Over any log a merchant gets one risk alert per transaction of a million or more, one incident per reconciliation with something unmatched, one snapshot per reconciliation, one notice per incident or alert. |
| EventEffects.DisputesMark | src/bomipay/services/event_handlers.py:420-427 | Over any log a known transaction ends disputed if and only if a handled dispute is about it, keeping its status otherwise. |
| Events.ReplayKeepsSettlementsAndDisputes | src/bomipay/services/event_replay.py:45-74 | Replaying any events of a log, in any order and number, changes no settlement row and no transaction status if its settlement events name their settlement. |
| Events.ReplayIdempotentIffNamed | src/bomipay/services/event_handlers.py:174-202 | A completed replay leaves the settlement table as it was if and only if every replayed settlement event carries a reference or a non-empty aggregate id. |
| Events.ReplayIdempotentIffIdsNotEmpty | src/bomipay/services/event_replay.py:48-57 | For events rebuilt from stored rows, whose aggregate id is never null, the empty string without a reference is the only id that breaks it. |
| Events.EmptyIdStoredTwice | src/bomipay/services/event_handlers.py:174-202 | Such an event, handled once and replayed, leaves two settlement rows. |
| MoneyAtRisk.BreakdownByProvider | src/bomipay/services/money_at_risk.py:375-385 | Amount and count of each provider, an empty name counting as unknown. |
| MoneyAtRisk.CalculateRiskScore | src/bomipay/services/money_at_risk.py:311-372 | The score as the capped sum of the five factors, computed with the two averaging loops. |
| MoneyAtRisk.CalculateMar | src/bomipay/services/money_at_risk.py:28-124 | The report: the three shares, their sum, the score and the breakdown. |
| RiskTerms.SharesAreOldShares | src/bomipay/services/money_at_risk.py:46-89 | The three shares: the merchant's transactions pending for 1800 seconds, successful for 604800, failed for 86400, the bound included. |
| RiskTerms.BreakdownIsExact | src/bomipay/services/money_at_risk.py:375-385 | The breakdown has exactly the providers of the transactions, empty ones as unknown, each with amount and number. |
| RiskTerms.FactorsReach | src/bomipay/services/money_at_risk.py:331-370 | When each of the five factors reaches its k-th point, for every k, in amounts, numbers, seconds and days. |
| MoneyAtRisk.CategoriesDisjoint | src/bomipay/services/money_at_risk.py:46-89 | A transaction is in at most one category. |
| MoneyAtRisk.ExposureConserved | src/bomipay/services/money_at_risk.py:91-109 | The total equals the exposure of all transactions at risk, the sum over categories and the sum over providers, in amount and count. |
| MoneyAtRisk.ExposureGrowsWithTime | src/bomipay/services/money_at_risk.py:46-92 | With amounts that are not negative, total and counts never fall as time passes over fixed transactions. |
| MoneyAtRisk.OuterCapNeverBinds | src/bomipay/services/money_at_risk.py:331-372 | The five factors already add up to at most 100, for all inputs. |
| MoneyAtRisk.AmountFactorSign | src/bomipay/services/money_at_risk.py:334-336 | The amount factor is negative if and only if thirty times the total is at most minus one million. |
| MoneyAtRisk.ScoreInRangeIff | src/bomipay/services/money_at_risk.py:318-372 | A reported score is between 0 and 100 if and only if thirty times the total exceeds minus one million times one more than the points of the other four factors, which do not depend on the total. |
| MoneyAtRisk.NegativeScore | src/bomipay/services/money_at_risk.py:318-336 | An exposure whose score is -28, outside the documented range. |
| MoneyAtRisk.FullScoreIff | src/bomipay/services/money_at_risk.py:331-372 | The score is 100 if and only if all five thresholds are reached. |
| Projection.ProjectResolution | src/bomipay/services/money_at_risk.py:388-470 | Which of the three outcomes is returned, the rate, the clearing day, the reported day and every entry of the timeline. |
| Projection.RemainderOnClearingDay | src/bomipay/services/money_at_risk.py:440-440 | What is left on the clearing day lies in [0, one day's reduction). |
| Projection.TimelineFalls | src/bomipay/services/money_at_risk.py:451-457 | Projected values are not negative, never rise, and fall by exactly the daily rate until the clearing day. |
| Projection.ZeroExactlyAfterClearing | src/bomipay/services/money_at_risk.py:451-453 | The timeline is zero exactly after the clearing day, on it when nothing is left, and all along for a negative exposure. |
| Projection.ReportedDayOnTimeline | src/bomipay/services/money_at_risk.py:437-452 | The clearing day is on the timeline if and only if it is not negative, as it is for a negative exposure, and comes before the horizon's end; and the length of the list in every case. |
| Alerts.AlertService.GetBySourceEvent | src/bomipay/services/alert.py:48-57 | Some alert with the key, or none if there is none. |
| Alerts.AlertService.CreateAlert | src/bomipay/services/alert.py:9-45 | The table for whichever row the look-up found: one more occurrence on an active one, else a new open alert; the returned alert has the key and is active. |
| Alerts.AlertService.UpdateAlertStatus | src/bomipay/services/alert.py:72-76 | Only the status of that alert changes, to any text. |
| Alerts.OccurrencesConserved | src/bomipay/services/alert.py:21-45 | Over any run, and whichever rows look-ups return, the occurrence counts of a key add up to the number of creations asking for it. |
| Alerts.StepKeepsRows | src/bomipay/services/alert.py:21-45 | A step keeps every row's key and place and never lowers its count; only a status change touches a status, and a creation adds at most one row, open and with one occurrence. |
| Alerts.CreationKeepsOneActive | src/bomipay/services/alert.py:21-42 | A creation keeps at most one active alert per key if and only if it does not find a resolved row beside an active one. |
| Alerts.StatusChangeKeepsOneActive | src/bomipay/services/alert.py:72-76 | A status change keeps it if and only if it does not reopen a row of the key beside another active one. |
| Alerts.OneActiveThroughoutIff | src/bomipay/services/alert.py:21-76 | A run keeps at most one active alert per key at every point if and only if it contains no step of these two kinds, nor a creation without a source event beside an active alert. |
| Alerts.TwoActiveAlerts | src/bomipay/services/alert.py:57-76 | Both kinds occur: two runs that end with two active alerts of one key. |

## Left out

- HTTP routes, schemas, migrations, the web site and the load-test scripts: plumbing.
- Redis Streams publishing and processing, provider sync, matching of reconciliation runs, and background tasks.
- Crash of a worker between claim and completion: what remains depends on the caller's transaction.
- Isolation of concurrent creators where the schema has no unique index (delivery keys, settlements): look-up and insert are one step.
- Message, user, alert, metadata and initial response of a notification: stored as given.
- A rollback after the adapter returned: it undoes the transaction's claim as well.
- Columns of a bank row that are stored as raw text only, and the value date, which is always null.
- Flushing only changed columns: the model's completion writes the same fields on the current row.
- Health scores and status of a provider, and the daily metrics row: these formulas are not modelled.
- IEEE rounding: averages and rates are exact.
- The queries' filters by merchant, provider and date window where they only select the input, as in outage detection and the projection.
- Parsing of statement files: rows arrive with stripped texts, parsed dates and integer amounts; `int(float(val) * 100)` depends on rounding.
- SHA-256 and JSON text: the statement hash is taken as injective, and JSON values as their own encoding.
- Cached values whose JSON round trip changes them, and values that JSON refuses.
- Redis glob character classes and escapes: patterns are literals, `?` and `*`.
- Freshness of a cached value against an invalidation between compute and store: the store is a later command of its own, so only the age bound holds.
- Fetching of transfers and refunds: the same loop with a date filter, or an early end on errors that are not retryable.
- Providers whose page counts grow without bound: the page loop then need not end.
- At-risk transactions without a category: the query depends on the truth value of SQL expressions.
- Database constraints other than the idempotency key's unique index, such as missing account codes and foreign keys.
- Alerts that the event handler inserts directly: they carry no occurrence from `create_alert`.
- Settlements.GetSettlementSummary: takes the database's GROUP BY answer as an argument and requires only what SQL guarantees of it.
- ProviderFetch.AllOrNothing: speaks of a provider with fixed pages, so no success reply comes from the fault schedule.
