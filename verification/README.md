# Stripe metering and billing: a Dafny model

This project models the metering and billing core of a Go service that sells API units through Stripe,
and the bounded-parallel runner that executes its compiled test binaries.

The service keeps four tables (`user_account`, `invalid_subscription`, `free_credit`, `spending_unit`).
Its handlers are sequences of SQL statements and Stripe requests with no enclosing transaction, with
early error returns, an "insert, and only if really inserted, charge" rule, and a retry after a
foreign-key violation. The questions are what any interleaving of such handlers keeps, and what
failures in the middle of a handler can destroy.

## How it is built

- `Identity.dfy` is the sanitising and hashing of ids; `Tables.dfy` the tables, the effect of every SQL
  statement as one atomic step, and the laws of sums, merges and clamped credit; `Gateway.dfy` the
  Stripe record, the cancellation rule and the allowance arithmetic.
- `Requests.dfy` writes each RPC as a small-step program. A program point carries what the handler
  holds there, and between two points lies exactly one external call. A call works, fails before its
  effect, or commits its effect and still reports an error.
- `Connections.dfy`, `Ledger.dfy` and `Service.dfy` are the same code in imperative form: a class that
  owns the tables and changes them in place, and methods with the loops, branches and early returns of
  the Go functions. Every method is proved equal to the small-step program, under every pattern of
  failures, so what is proved about the programs holds for the methods.
- `System.dfy` serves any number of requests at once. A script is any sequence of arrivals, calls (of any
  handler, with any failure) and changes of Stripe or the clock. The state carries three history fields: the
  rows charged, the rows whose charge is lost, and the subscriptions replaced. `Billing.dfy` proves the books
  of this system, `Checkouts.dfy`, `Subscriptions.dfy` and `Entitlement.dfy` its subscription rules, `Verdicts.dfy`
  what an interleaved verdict rests on.
- `Serving.dfy`, `Batch.dfy`, `Amounts.dfy`, `Retry.dfy` and `Renewal.dfy` are about requests served alone: what a
  clean run does, how batches compose, amounts beyond int32, what failed attempts followed by a retry leave, and when
  a checkout restores entitlement.
- `Promises.dfy` says once more what each request does, in the fields of messages, Stripe records and rows alone.
- `Reports.dfy` compares the count that a batch reports with the rows it inserted, and `Names.dfy` runs on raw ids
  with runs on sanitised ids; both for requests alone and for the interleaved system.
- `Runner.dfy` is `runBinaries` as a step relation over the main loop and the goroutines.

## Results worth knowing

- The law "credit = max(0, grant - charges)" is proved for every configured grant. A negative grant stays as it
  is until the first charge and is zero afterwards, which is why some bounds are stated on `Max(0, credit)`.
- "No paid subscription is lost" is false when the checkouts of one user overlap: `Subscriptions.OverlapLosesOne`
  gives the schedule. `Subscriptions.LosesNothingIffGuarded` says for every run exactly when it holds: when every
  store that commits overwrites nothing, what its own handler read, the same id, or an id already on record. Checkouts
  handled one at a time are such runs (`Subscriptions.NoSubscriptionLost`).
- "A live subscription is never replaced" is false even then if Stripe revives a subscription between the handler's
  request and its store: `Subscriptions.RevivedIsReplaced` gives the run, and `Subscriptions.ReplacedAliveIff` says
  that this is the only way.
- Redelivering a checkout is idempotent for accounts and credits. It is not for `invalid_subscription`;
  `Serving.RedeliveryIsHarmless` says exactly when rows are added.
- The ledger function converts amounts to int32 without a check. Batches that arrive by RPC are safe; a direct
  caller can send an amount that raises the credit, or whose charge the database refuses after the row is stored
  (`Amounts.OversizedExamples`, exact conditions in `Amounts.OversizedAmounts`).
- Replacing ids by their letters and digits changes nothing, except for ids of punctuation only, which are served raw
  and rejected once stripped (`Names.CleanOnlyIfUsable`).
- The repository's README describes the allowance as dollars times units; the code drops the cents of the
  price first. The model follows the code (`Gateway.LimitShortfall`).
- The comment on `AddSpendingUnits` promises the number of inserted rows. On an error the function returns 0 although
  earlier rows are committed; the model follows the code. `Reports.ShortReport` is such a run, and
  `Reports.ReportedRows` says exactly when the count is the number of rows inserted.
- "After `exhausted` every later verdict is invalid" is false: `Renewal.ExhaustedThenPaying` is a run from empty tables
  in which a renewal makes the user a paying customer again. `Renewal.ValidIffRenewed` says exactly when a checkout
  after `exhausted` leads to a valid verdict, and `Entitlement.ValidNeedsRenewal` that nothing else does while Stripe
  keeps the record, however requests interleave. While the account keeps its subscription and Stripe the record the law holds
  (`Entitlement.ExhaustedStays`); with serial checkouts the account keeps it as long as the record is not cancelled
  (`Entitlement.ExhaustedUntilCancelled`).

## Model

| member | source | states |
|---|---|---|
| Identity.HashExternalID | api/services/stripe/db/db.go:36-50 | the loop that appends to a buffer hashes exactly the ASCII letters and digits of the id, in order |
| Identity.KeptCharacters | api/services/stripe/db/db.go:44 | the bytes kept are exactly the characters a-z, A-Z and 0-9 |
| Identity.AlnumKeeps | api/services/stripe/db/db.go:41-47 | sanitising keeps each byte that is a letter a-z, A-Z or a digit 0-9 as often as it occurs and drops every other byte |
| Identity.AlnumConcat | api/services/stripe/db/db.go:41-47 | sanitising distributes over concatenation, so order is kept |
| Identity.SameRow | api/services/stripe/db/db.go:33-50 | among ids without a hash collision two name the same row exactly when their letters and digits agree, and punctuation inserted anywhere changes no key |
| Tables.AttemptKeepsChain | sqlc/schema/001_init.sql:51-75 | every statement, whatever befalls it, keeps the foreign keys, the uniqueness of external ids and "spending implies a credit row", given that spending is inserted only for users with credit |
| Tables.SumForPermutation | internal/autogenerated/sqldb/spending_unit.sql.go:12-18 | a user's spending depends on the rows as a multiset only |
| Tables.WindowsAdd | internal/autogenerated/sqldb/spending_unit.sql.go:12-18 | the sums over [a,b] and [b+1,c] add up to the sum over [a,c] |
| Tables.SharedBoundary | api/services/stripe/app/subscription.go:61-65 | back-to-back billing periods count the shared millisecond twice and nothing else |
| Tables.SumBetweenIsWindow | internal/autogenerated/sqldb/spending_unit.sql.go:12-18 | a windowed sum is the user's spending over the rows of the closed window |
| Tables.WholeWindow | internal/autogenerated/sqldb/spending_unit.sql.go:12-18 | over a window that holds every row the sum is all of the user's spending |
| Tables.OneMoreRow | internal/autogenerated/sqldb/spending_unit.sql.go:12-18 | one more row adds its amount when it is the user's and lies in the window, and changes nothing otherwise |
| Tables.SumOfOwnRows | internal/autogenerated/sqldb/spending_unit.sql.go:12-18 | rows of other users never count |
| Tables.UpsertsMerge | internal/autogenerated/sqldb/user_account.sql.go:61-72 | after any sequence of upserts every cell holds its last non-NULL argument, or its old value, and no other row or table changes |
| Tables.EmptyUpsertIsIdentity | api/services/stripe/db/db.go:181-281 | the on-demand upsert without ids never changes an existing account |
| Requests.NullRoundTrip | api/services/stripe/db/db.go:143-148 | the empty string and nothing else becomes NULL, and reading back gives the string |
| Tables.SpendBalance | internal/autogenerated/sqldb/free_credit.sql.go:12-16 | clamping charge by charge equals clamping the total, for every starting credit |
| Gateway.LimitExact | api/services/stripe/app/subscription.go:88-90 | the two wrapping int64 products give the exact limit precisely when the exact limit is an int64 |
| Gateway.LimitShortfall | api/services/stripe/app/subscription.go:88-90 | the limit never exceeds the exact price in units, falls short by exactly the dropped cents, and by less than one dollar's units |
| Gateway.DropsCentsTowardZero | api/services/stripe/app/subscription.go:89 | the division by 100 drops the cents toward zero, for negative amounts too |
| Requests.CallsDecrease | api/services/stripe/app/service.go:29-99 | every external call brings a handler nearer to its answer, whatever the reply |
| System.RunAloneIsScript | api/services/stripe/db/db.go:67-140 | a request served alone is one script of the interleaved system: its own calls in order |
| Billing.RunKeepsInv | api/services/stripe/db/db.go:67-140 | every script keeps the chain, the program-point facts, the books and the balances, and only adds rows and charges |
| Billing.ExactlyOnce | api/services/stripe/db/db.go:93-137 | under any interleaving and failures no external id is charged twice or without an inserted row, every row is charged, owed or lost and never two of these, and each credit is the clamped grant less its charges |
| Billing.Conservation | api/services/stripe/db/db.go:93-137 | per user, inserted spending = charged + in flight + lost, all non-negative |
| Billing.CreditBounds | api/services/stripe/db/db.go:129-137 | max(0, grant - all spending) <= credit <= grant in every reachable state |
| Billing.CreditAtRest | api/services/stripe/db/db.go:129-137 | with no charge in flight the credit is exactly the clamped grant less all spending that was not lost |
| Billing.ReferentialChain | api/services/stripe/db/db.go:85-103 | spending implies credit implies account; working calls meet a foreign-key violation only at the first credit upsert of a user without account, a charge always finds its row, and the verdict's account read always finds one |
| Billing.NoSurprises | api/services/stripe/db/db.go:265-290 | one retry of the credit upsert suffices, the spending insert meets no violation, and the no-account sentinel of the verification is never taken |
| Billing.SmoothRun | api/services/stripe/db/db.go:67-140 | while no call fails, no charge is lost and no request ends in a database error, however requests interleave |
| Billing.LossesNeedFailures | api/services/stripe/db/db.go:97-137 | there are at most as many lost charges as failed calls |
| Billing.AcceptedItemsPass | api/services/stripe/grpc/server.go:132-149 | no batch accepted by the RPC is ever stopped by the ledger's own item checks |
| Billing.CreditRatchet | internal/autogenerated/sqldb/free_credit.sql.go:12-34 | from any reachable state on nobody's positive credit rises |
| Serving.ServeIsFaultless | api/services/stripe/db/db.go:67-140 | serving without failures is the run with the failure-free oracle |
| Serving.ServeEnsure | api/services/stripe/db/db.go:265-290 | GetFreeCredit creates exactly what is missing, never fails when calls work, and returns the old credit or the grant |
| Serving.ServeVerify | api/services/stripe/app/subscription.go:14-99 | VerifySubscription answers the judgement read off one snapshot and only creates the credit row |
| Serving.ServeCheckout | api/services/stripe/app/service.go:29-99 | a checkout fills an empty account, replaces a cancelled subscription, records itself beside a live one, and changes nothing when Stripe does not know the current one |
| Serving.RedeliveryIsHarmless | api/services/stripe/app/service.go:57-97 | delivering an event k >= 1 times leaves accounts and credits as after the first; each further delivery adds an invalid row exactly when the current subscription is live |
| Serving.ExhaustedExactly | api/services/stripe/app/subscription.go:69-98 | exhausted exactly when period spending exceeds floor(cents/100) * quantity * units, otherwise paying, with the bound to the exact price |
| Promises.CheckoutOutcome | api/services/stripe/app/service.go:29-99 | the tables and the answer for every event, field by field: refused, stored in an empty account or over a cancelled record, recorded as an invalid row, or nothing changed |
| Promises.ReplacedIffCancelled | api/services/stripe/app/utils.go:10-19 | a known subscription is replaced exactly when its status is canceled or its cancel time has passed, whatever other status it has; otherwise the event is recorded as invalid |
| Promises.VerifyOutcome | api/services/stripe/app/subscription.go:14-99 | the rows created and the answer for every user, on the fields of rows and records: order of the checks, the period in milliseconds, this user's spending against the whole-dollar limit |
| Promises.FirstGrant | api/services/stripe/db/db.go:269-272 | a first verification grants the configured credit |
| Promises.OthersDoNotMatter | internal/autogenerated/sqldb/spending_unit.sql.go:12-18 | the answer of a verification is the same on tables that differ in other users' rows only |
| Promises.RefusedIff | api/services/stripe/grpc/server.go:129-142 | a batch is refused exactly when it is empty or an item lacks an id, a positive amount or a time; otherwise it is added |
| Promises.AddUnitsOutcome | api/services/stripe/grpc/server.go:132-154 | for an accepted batch: the new rows are those of its new items with their own event id, user, amount and time, and each user is charged that user's own new items, never below zero |
| Batch.MemoRefines | api/services/stripe/db/db.go:70-90 | the per-batch memo gives the same tables and total as ensuring credit for every item, even when raw ids share a key |
| Batch.PostedConcat | api/services/stripe/db/db.go:72-138 | posting a ++ b is posting a and then b |
| Batch.ServeConcat | api/services/stripe/db/db.go:67-140 | adding a ++ b is adding a then b, in tables and in total |
| Batch.BadItemStops | api/services/stripe/db/db.go:72-82 | items are validated one by one: those before the first bad item are committed, and the batch ends there with an error |
| Batch.PostedAllIsClean | api/services/stripe/db/db.go:92-139 | a clean batch appends exactly the rows of the first occurrences of absent ids, keeps old rows, and charges each user their sum, clamped |
| Batch.PermutedBatch | api/services/stripe/db/db.go:67-140 | with pairwise distinct ids, serving any permutation of a batch gives the same accounts, credits and rows up to order, and reports the same total |
| Amounts.OversizedAmounts | api/services/stripe/db/db.go:93-137 | for a new item of any amount on any well-formed tables: the row stored with the wrapped amount, the answer, the credit left; the charge is refused exactly when it would lift the credit beyond int32, and exact conditions on amount and old credit for the credit to end right and to rise |
| Amounts.OversizedExamples | api/services/stripe/db/db.go:131-134 | two whole runs: 2^32 - 5 units raise a credit of 10 to 15 and are reported as added; 2^31 units end in an error with the row stored and the credit still 10 |
| Retry.AttemptPartial | api/services/stripe/db/db.go:72-138 | an attempt under any failures leaves the rows of some prefix of the batch and loses at most one charge; if it reports a total it finished and lost none |
| Retry.CrashAndRetry | api/services/stripe/db/db.go:97-137 | after any number of failed attempts a clean retry leaves the rows, accounts and credit rows of one clean run; one list of lost rows for all users, at most one per attempt, gives every credit exactly, so credits are never below the clean ones and above by at most the lost charges |
| Reports.ReportedRows | api/services/stripe/db/db.go:64-139 | for any batch and any failures: the rows left are the new ones among the items whose insert was executed, a reported total is their number, and the returned count is the growth of the table exactly when a total is reported or none of those items was new |
| Reports.ShortReport | api/services/stripe/db/db.go:84-99 | on any well-formed tables, for a batch whose first item is new, one failed call is enough: the row is stored and the function returns 0 |
| Reports.OwnRowsReported | api/services/stripe/db/db.go:93-139 | however requests interleave and fail, a handler that reports a total reports exactly the rows that it inserted itself |
| Reports.AddedIsRecorded | api/services/stripe/db/db.go:72-139 | however requests interleave and fail, once a request is answered with a total every one of its items has a row, and only one |
| Reports.RowsAreRequested | api/services/stripe/grpc/server.go:143-148 | in every reachable state each row was inserted by a handler for an item of its own request, with that item's event id, user, amount and time |
| Reports.AddedAtMost | api/services/stripe/db/db.go:71-139 | the reported total counts each remaining item at most once |
| Names.ServeClean | api/services/stripe/db/db.go:36-50 | a request on stripped ids leaves the same tables and gives the same answer |
| Names.CleanedFields | api/services/stripe/db/db.go:36-50 | a stripped request has the letters and digits of its user and event ids and is otherwise the same |
| Names.CleanOnlyIfUsable | api/services/stripe/db/db.go:72-75 | for a request that is taken up this holds exactly when no id consists of punctuation only |
| Names.CleanRuns | api/services/stripe/db/db.go:36-50 | for every script of usable requests, with any interleaving, failures and Stripe changes, the translated script of the stripped requests has the same tables, Stripe, charges, losses, replaced subscriptions and answers, and no more failures |
| Names.RawRuns | api/services/stripe/db/db.go:70-90 | conversely every script of stripped requests is matched by one of the raw requests with the same outcome and as many failures |
| Checkouts.AccountMoves | internal/autogenerated/sqldb/user_account.sql.go:61-72 | one call changes an account only by creating an empty one or by storing its own checkout |
| Checkouts.IdsArePaired | api/services/stripe/app/service.go:57-83 | in every reachable state an account's subscription and customer ids are both absent or come from one checkout event of that user |
| Subscriptions.LosesNothingIffGuarded | api/services/stripe/app/service.go:52-92 | for every run: every subscription that was ever current stays current, recorded or retired at every moment if and only if every committed store overwrites nothing, what its handler read, the same id, or an id on record |
| Subscriptions.SerialIsGuarded | api/services/stripe/app/service.go:52-83 | with the checkouts of a user handled one at a time every store is guarded |
| Subscriptions.NoSubscriptionLost | api/services/stripe/app/service.go:52-92 | in such runs every subscription that was ever current and every handled one is current, recorded as invalid, or was replaced after being seen cancelled |
| Subscriptions.RetiredWasCancelled | api/services/stripe/app/service.go:73-83 | in any run a subscription counts as retired only if a handler was told by Stripe that it is cancelled and later committed its own checkout to that account |
| Subscriptions.OverlapLosesOne | api/services/stripe/app/service.go:52-71 | two overlapping checkouts on a fresh account both succeed and the first subscription is lost |
| Subscriptions.ReplacedAliveIff | api/services/stripe/app/service.go:73-83 | in serial runs, whatever Stripe does, a subscription that is not cancelled is replaced exactly by a store over one that its handler read as cancelled and Stripe has revived since |
| Subscriptions.RevivedIsReplaced | api/services/stripe/app/service.go:73-83 | a serial run from empty tables without failures in which a subscription is cancelled, read as cancelled, revived, and then replaced while live |
| Subscriptions.NeverReplacedAlive | api/services/stripe/app/service.go:73-83 | in serial runs, if Stripe never revives a cancelled subscription, an account's subscription changes only while its Stripe record is cancelled |
| Entitlement.NoCreditNoFreeTier | api/services/stripe/app/subscription.go:15-22 | from a reachable state without free credit on, no verification of the user still under way or arriving later answers freeTier, in any run |
| Entitlement.FreeTierNeverReturns | api/services/stripe/app/subscription.go:15-22 | once a verification has answered a verdict other than freeTier, no verification of that user that answers later answers freeTier |
| Entitlement.CheckoutEndsNoSubscription | api/services/stripe/app/subscription.go:25-34 | once a checkout of the user is handled, no verification that answers later, even one already under way, answers noSubscription, in any run |
| Entitlement.ExhaustedStays | api/services/stripe/app/subscription.go:36-98 | while the account keeps one subscription and Stripe one record of it, after an answer exhausted every verdict that comes later is exhausted or cancelled, and, if the clock does not go back, cancelled only when the record is |
| Entitlement.ExhaustedUntilCancelled | api/services/stripe/app/subscription.go:36-98 | in serial runs in which Stripe revives nothing, keeps the record, and the clock does not go back, after an answer exhausted every later verdict is exhausted while the record is not cancelled |
| Entitlement.ValidNeedsRenewal | api/services/stripe/app/service.go:73-83 | while Stripe keeps the record, a valid verdict that comes after an answer exhausted needs a committed store that replaced the subscription; in serial runs in which Stripe revives nothing the record was cancelled at that moment |
| Renewal.ValidIffRenewed | api/services/stripe/app/service.go:73-83 | after exhausted, with the current record unchanged, the verdict after a checkout is valid if and only if the current subscription is cancelled by now and the new one is known, active, not cancelled, complete and within its limit |
| Renewal.RenewalIsJudgedAnew | api/services/stripe/app/service.go:73-83 | after a checkout has replaced a cancelled subscription, a user without credit is judged on the new record alone |
| Renewal.ExhaustedThenPaying | api/services/stripe/app/subscription.go:36-98 | a run from empty tables: checkout, spending, exhausted, the clock passes the end of the subscription, second checkout, payingCustomer |
| Verdicts.VerdictIsJustified | api/services/stripe/app/subscription.go:14-99 | every verdict, however its calls interleave, is the judgement of the credit, account, record, customer with clock, and spending as they were at five moments, in this order, at which this handler made a call |
| Verdicts.PayingIsPaid | api/services/stripe/app/subscription.go:36-98 | a payingCustomer answer implies such moments with no credit, a held subscription, an active record not cancelled, and spending within its limit |
| Entitlement.CountsNeverFall | internal/autogenerated/sqldb/spending_unit.sql.go:12-18 | along any run no user's spending in any window falls |
| Connections.Backend.InsertSpendingUnit | internal/autogenerated/sqldb/spending_unit.sql.go:33-65 | appends the row and replies 1 unless the external id is there (0) or the user has no account (violation), under every failure |
| Connections.Backend.CountUnitsBetween | internal/autogenerated/sqldb/spending_unit.sql.go:12-31 | replies the sum of the user's amounts in the closed window |
| Connections.Backend.UpsertAndGetFreeCredit | internal/autogenerated/sqldb/free_credit.sql.go:28-47 | returns the existing credit, or inserts the grant if the account exists |
| Connections.Backend.ConsumeFreeCredit | internal/autogenerated/sqldb/free_credit.sql.go:12-26 | lowers the credit by the amount, not below zero, and fails when the result is no int32 |
| Connections.Backend.UpsertUserAccount | internal/autogenerated/sqldb/user_account.sql.go:61-89 | inserts the account or overwrites the cells with non-NULL arguments |
| Connections.Backend.InsertInvalidSubscription | internal/autogenerated/sqldb/invalid_subscription.sql.go:13-37 | appends the row if the account exists |
| Ledger.UpsertUserAccount | api/services/stripe/db/db.go:201-215 | one upsert on the hashed id with empty strings as NULL |
| Ledger.GetFreeCredit | api/services/stripe/db/db.go:265-290 | is the small-step program with its retry under every failure pattern, and returns the credit then stored |
| Ledger.AddSpendingUnits | api/services/stripe/db/db.go:67-140 | is the small-step loop under every failure pattern; without failures it leaves the tables of the memo-free loop and returns the number of rows added |
| Ledger.CheckUserAccount | api/services/stripe/db/db.go:151-166 | whether the account exists and its subscription id, empty when NULL |
| Ledger.GetUserAccount | api/services/stripe/db/db.go:231-261 | the account with NULLs as empty strings, or the sentinel without a row |
| Ledger.InsertInvalidSubscription | api/services/stripe/db/db.go:169-198 | is the small-step program with its account creation and retry |
| Ledger.CountUnitsBetween | api/services/stripe/db/db.go:293-326 | the user's spending in the closed window |
| Service.HandleCheckoutSessionCompleted | api/services/stripe/app/service.go:29-99 | is the small-step program under every failure pattern; without failures it leaves exactly the tables of the four-way case distinction |
| Service.VerifySubscription | api/services/stripe/app/subscription.go:14-99 | is the small-step program under every failure pattern; without failures it answers the judgement on the tables it was called on |
| Service.AddSpendingUnitsRpc | api/services/stripe/grpc/server.go:125-155 | validates, converts and forwards the batch; below 2^31 items the int32 reply is the ledger's total |
| Runner.RunKeeps | cmd/testrunner/main.go:105-142 | every schedule keeps semaphore count, wait-group count, mutex ownership, single starts and the first error consistent with the goroutines' phases |
| Runner.BoundedParallelism | cmd/testrunner/main.go:107-119 | at most max(1, parallel) processes run at once, and both counters equal the goroutines they count |
| Runner.ParallelismReached | cmd/testrunner/main.go:107-119 | every number of processes up to the list length and max(1, parallel) runs at once under some schedule |
| Runner.FirstErrorIsExclusive | cmd/testrunner/main.go:134-136 | two goroutines are never in the critical section together |
| Runner.HistoryOfEnds | cmd/testrunner/main.go:133-136 | a binary counts as failed exactly when the script ended its process with an error, and no process ends twice |
| Runner.ReturnedResult | cmd/testrunner/main.go:105-142 | on return every binary has run exactly once and all slots are free; the result is nil exactly when every process-ending move ended with success, and otherwise names a binary whose process ended with an error |
| Runner.FirstErrorStays | cmd/testrunner/main.go:135 | the error recorded first is never overwritten |
| Runner.NeverStuck | cmd/testrunner/main.go:107-140 | until it returns some move is enabled, for every list length, every parallel value and either outcome of the running processes |
| Runner.RunsEnd | cmd/testrunner/main.go:113-140 | no schedule makes more than 11 n + 1 moves |

## Left out

- SHA-256 and hex encoding: the hash is an unknown function with 64-character results; collision freedom is assumed only in `Identity.SameRow`, and only for a finite set of ids.
- JSON decoding, webhook signatures, the Stripe SDK and `CancelSubscription`: events arrive decoded, and Stripe is a snapshot of records by id in which an absent id is an error.
- gRPC and HTTP plumbing, configuration loading, bootstrap and error texts: errors keep their kind only, and `CREDIT_UNITS_PER_DOLLAR` arrives parsed.
- `created_at` and `updated_at` bookkeeping, surrogate ids and cascade deletes (no query deletes a row); `spending_unit.created_at` is modelled.
- Column widths: a value the database refuses for its length is one of the calls that fail before their effect. Amounts and credits are int32.
- The type switches on driver values: the SQL results are integers.
- Each SQL statement is one atomic step; transaction isolation inside a statement is the database's.
- In the runner: process execution, working directories and output, and the choice of binaries in `main`. A process is a step that succeeds or fails.
- Retry.CrashAndRetry: the attempts of one batch follow one another with no other request between them, because another user of the same external ids may win the insert; interleaved attempts are covered by `Billing.ExactlyOnce` and `Billing.Conservation`.
- Names.CleanRuns: for requests without an id of punctuation only; `Names.CleanOnlyIfUsable` shows that such a request is not served alike once stripped.
