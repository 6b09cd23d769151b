# AuthLedger: a verified model of the money pipeline and its protocols

AuthLedger takes card payments through a provider. Signed provider events arrive at a webhook in any
order and more than once; a scheduled job and an admin route pull the provider's settlements, post fees
and report discrepancies; refunds go out through the provider and come back as events. Four books have
to agree: the payment rows, the webhook inbox, an append-only double-entry ledger, and the reconciliation
history. Beside them the application runs a few small protocols: email delivery under a daily cap,
single-use credentials with a purge job, two-factor login, the login lockout and the audit of denials.

This project models those parts and proves what they keep over every run.

| module | what it models |
|---|---|
| `Prelude` | `Option`, sums over finite maps, and runs of steps |
| `Ledger` | entries and postings as two tables, posting, the balance rule, the balance views |
| `StripeMapping` | provider events and balance transactions as the domain reads them |
| `Payments` | payment rows, their status machine, refund rows |
| `Webhook` | one delivery as one transaction: claim, apply, post, roll back |
| `Confluence` | when the order of deliveries cannot be seen |
| `Interleaving` | the same transaction split into statements, many open at once |
| `Agreement` | when statuses and ledger agree under that interleaving |
| `Provider` | the newest-first, growing list of balance transactions, and its paging |
| `Reconciliation` | the pass over settlements, the paging loop, the recorded runs, the fees |
| `OverlappingRuns` | several reconciliation runs on one ledger |
| `Watermark` | what a history of runs has scanned |
| `Books`, `Requests` | payments and ledger together, over create, webhook and reconcile steps, back to what was requested |
| `RunHistory` | what the reconciliation history records, and what a report says of the payments |
| `Policy`, `Refunds` | the refund handler, the provider's refunds, their ledger entries |
| `RefundBounds`, `RefundLimits` | how much can be refunded, by the rows and by the provider, when requests overlap or die |
| `Dispatch` | email delivery: claim, count, send, mark |
| `Credentials`, `CredentialHistory` | tokens, challenges, sessions, OAuth flows, and the purge |
| `Mfa` | enrolment, TOTP and recovery codes, login with a second factor |
| `Enrolment` | what overlapping enrolments do to accepted steps, to the factor and to the secret |
| `Accounts`, `Lockout`, `LockoutReached` | password login: the failure counter and the timed lock, one attempt at a time and overlapping |
| `DenialAudit`, `DenialBounds` | the audit of authorization denials |

State that the program changes in place is a class whose methods are proved equal to a function of the
old state (`Ledger.Store`, `Payments.Store`, `Webhook.Handler`, `Provider.Client`,
`Reconciliation.Reconciler`, `Refunds.Desk`, `Dispatch.Dispatcher`, `Credentials.Tables`, `Mfa.Store`,
`Accounts.Store`, `DenialAudit.Hook`). The lemmas are about those functions and about runs of them.

## Assumptions

- A statement, or a `db.transaction()`, is one atomic step. `Interleaving` splits the webhook transaction
  into its statements; there, reads see committed rows, an insert waits for an uncommitted row with the
  same key, and an update waits for an uncommitted version of its row.
- `Confluence` and `Books` take a whole webhook transaction as one step, which the code does not enforce:
  the payment row is read without a lock. `Agreement` drops the assumption and says exactly when statuses
  and ledger still agree. At most one charge, one effect per event, and balanced entries never need it.
- Everything a refund request reads before the provider call (the payment, a row by key, the refunded
  total) is one step; the provider call and the insert of the row are two more.
- Hashes are injective and random values fresh; a credential is known by its hash. Whether a TOTP code
  matches a secret, and in which time step, is an input.
- The clock never goes back where a lemma says so (`Clocked`, `Ordered`, `Wait`); for the purge it is enough
  that nothing after a purge is dated before it (`Proper`).
- Column checks are evaluated before the conflict clause of an insert, so a malformed currency throws
  even when the key is taken.
- The provider's list is newest first, starts a page after the cursor id, and says `has_more` exactly
  when more remains; it may grow at the front between calls. A refund under a known idempotency key
  replays if it is identical and is rejected if it is not.
- No account is deleted.

## Where the code keeps less than it seems to promise

- Deliveries converge exactly when the events are coherent (`Confluence.ConfluentIffCoherent`). The
  condition is weaker than "every terminal event is later than every processing event": one terminal
  event no earlier than each processing event is enough.
- When webhook transactions interleave, statuses and ledger agree after every schedule exactly when no
  payment has both a succeeded event and another event of a different kind
  (`Agreement.AgreementIffOneKind`).
- The daily email cap holds when attempts fail only in the send. An attempt that dies between its claim
  and its count leaves a claim the retry never counts, and each such claim is one email over the cap
  (`Dispatch.SentWithinCap`, `Dispatch.UncountedAddUp`); the cap is sure exactly when there is none
  (`Dispatch.CapIffAllCounted`).
- The refund amount and ceiling are checked against recorded rows. They bind every payment whose requests do
  not overlap (`RefundBounds.RowsWithinBounds`); two overlapping requests that are each allowed add up
  (`RefundBounds.OverlapAddsUp`). So amount and ceiling are sure exactly when no two requests on the payment
  are open together (`RefundLimits.RowsBoundIffOneOpen`, `RefundLimits.CeilingIffOneOpen`). For the money
  sent the amount is sure exactly when, besides, no provider refund loses its request
  (`RefundLimits.MoneyBoundIffNoneLost`): a lost reply, or a handler that dies after the provider made the
  refund, leaves money without a row (`RefundBounds.LossOverspends`), which may never get one
  (`RefundBounds.LostForGood`, `RefundBounds.RecordableIff`).
- The replay guard on TOTP steps is per enrolment. An accepted step can be accepted again exactly when a
  confirmation has gone through since and no step as new was accepted after it
  (`Enrolment.AcceptedAgainIff`); two overlapping confirmations of one staged secret do that
  (`Enrolment.OverlapReadmitsStep`).
- Turning the factor off is meant to take a code. It goes off in exactly one other way: a set-up let
  through before the confirmation in force is staged after it (`Enrolment.FactorGoesOffIff`,
  `Enrolment.LateSetupTurnsOff`).
- A secret is meant to gate login only once a code confirmed it. A confirmation enables the secret its code
  was checked against exactly when nothing wrote the stored secret in between, or the last write was the
  same secret (`Enrolment.CheckedSecretEnabledIff`, `Enrolment.UnconfirmedSecretEnabled`).
- The lockout is meant to allow ten comparisons per lock period. With at most `k` attempts in flight it
  allows `9 + k`, and that is reached for every `k` and any number of periods
  (`Lockout.OverlappingRateBound`, `LockoutReached.BoundIsReached`); so ten is sure exactly when attempts
  come one at a time (`LockoutReached.TenIffOneAtATime`).
- Recorded fees equal the fees balance exactly when no failed run had posted a fee
  (`Reconciliation.RecordedWithinBalance`); otherwise they are less.
- A denied user's rows are meant to be eleven per minute at most. Emptying the counter map restarts the
  count (`DenialBounds.EmptyingPassesBound`), so the bound is sure exactly when fewer distinct users than
  the map's ceiling are denied (`DenialBounds.BoundIffFewUsers`). Each emptying allows eleven more
  (`DenialAudit.DenialRateBound`), and a span that starts in a running window ten more
  (`DenialAudit.DenialRateBoundAnywhere`).
- The comment on the inbox table says an unmatched event is retried once its row appears; no code does,
  and a replay of it is a no-op (`Webhook.ReplayAndRetry`). The comment on the purge says idle sessions may
  still be listed; the listing leaves them out, as the model does.

## Model

| member | source | states |
|---|---|---|
| Ledger.PostRefines | api/src/domain/ledger.ts:46-66 | inserting an entry row and its posting rows is inserting into a map keyed by (kind, reference), result and content |
| Ledger.PostKeepsIntegrity | api/migrations/0009_ledger.sql:24-62 | unique keys, the foreign key, and every entry non-empty and summing to zero survive any post, accepted or refused |
| Ledger.PostedIff | api/src/domain/ledger.ts:27-66 | a post throws, finds its key or inserts, each exactly when; an insert appends one entry row and its postings, nothing else |
| Ledger.PostOnce | api/src/domain/ledger.ts:17-22 | a second post under a key changes nothing, whatever it carries |
| Ledger.ReportConserves | api/src/domain/ledger.ts:116-130 | per currency, the five accounts of the balance view add up to zero |
| Ledger.AccountBalanceIsReportTotal | api/src/domain/ledger.ts:82-89 | an account's balance is the sum of its view rows over all currencies in use |
| Ledger.RegroupByEntry | api/src/domain/ledger.ts:117-124 | grouping all postings by (account, currency) equals summing entry by entry |
| Ledger.ReportedIsGroup | api/src/domain/ledger.ts:116-130 | the view shows each group's sum, and a group it leaves out sums to zero |
| Ledger.ReportByKind | api/src/domain/ledger.ts:93-160 | per currency, receivable is charges less refunds, disputes and fees, and each other account is its own kind's total |
| Ledger.PostMovesBalance | api/src/domain/ledger.ts:23-36 | a post moves each account by what the entry says of it, once, and not at all when refused or taken |
| Ledger.TemplateBalances | api/src/domain/ledger.ts:97-105 | no entry the application writes is refused as unbalanced |
| Ledger.TemplateSums | api/src/domain/ledger.ts:142-160 | which accounts each kind of entry moves, and in which direction |
| Ledger.PostKeepsShaped | api/src/domain/ledger.ts:93-160 | posting charges, refunds, disputes and fees leaves every entry in the shape of its kind |
| Ledger.Store.PostEntry | api/src/domain/ledger.ts:23-75 | result and both tables equal those of the specified post, from any state |
| Ledger.Store.PostCharge | api/src/domain/ledger.ts:93-106 | posts the charge of an intent: receivable up, revenue down by the amount |
| Ledger.Store.ApplyLedgerEvent | api/src/domain/ledger.ts:147-160 | posts a refund or dispute: its expense up, receivable down by the amount |
| StripeMapping.MapsExclusive | api/src/domain/stripe-mapping.ts:10-53 | no event type both moves a payment and posts to the books; only refunds and disputes post |
| StripeMapping.SettlementsExact | api/src/domain/stripe-mapping.ts:59-76 | the settlements of a batch are exactly its charges and payments, each with its own figures |
| StripeMapping.SettlementsInOrder | api/src/domain/reconciliation.ts:195-195 | settlements come in list order, each as often as its transaction is listed |
| Payments.TerminalIsFinal | api/src/domain/payments.ts:25-63 | a terminal payment is never changed, and a changed one is never `created` again |
| Payments.AppliedIff | api/src/domain/payments.ts:34-63 | unknown, terminal, stale and applied, each exactly when; an applied event gives its kind's status and its time and changes nothing else |
| Payments.CreateOnce | api/src/domain/payments.ts:65-102 | a retried create returns the first row whatever intent or amount it carries; the key index stays consistent |
| Payments.CreatedIff | api/src/domain/payments.ts:79-101 | a create throws, finds its key or inserts, each exactly when; the new row carries the request's own user, key, amount and currency, waiting |
| Requests.RowsAreOfRequests | api/src/domain/payments.ts:69-102 | in every reachable state, every payment row is, figure for figure, of the request that first opened it |
| Requests.RequestOpens | api/src/routes/payments.ts:87-106 | and a request the table admits, for an intent and key without a row, opens the payment as asked |
| Requests.ChargesAreOfRequests | api/src/routes/stripe-webhooks.ts:109-124 | in every reachable state, every charge in the ledger is of the amount and currency that were requested |
| Payments.FindRefund | api/src/domain/payments.ts:115-125 | finds the amount of a row with the key exactly when there is one |
| Payments.RefundRecordedIff | api/src/domain/payments.ts:127-148 | the insert of a refund row throws, finds its key or appends the row, each exactly when |
| Payments.Store.ApplyPaymentEvent | api/src/domain/payments.ts:34-63 | outcome and rows equal those of the status machine, unknown, terminal and stale included |
| Payments.Store.RecordCreatedPayment | api/src/domain/payments.ts:69-102 | inserts, finds the key, or throws (bad amount, bad currency, intent taken), and keeps the index |
| Payments.Store.RecordRefundRow | api/src/domain/payments.ts:127-148 | a taken key changes nothing, a non-positive amount throws, else the row is appended |
| Webhook.Handler.Receive | api/src/routes/stripe-webhooks.ts:78-131 | the statement-by-statement transaction, with rollback on a throw, equals one atomic delivery on all three tables |
| Webhook.DeliverRefines | api/src/routes/stripe-webhooks.ts:86-131 | a delivery on the tables is the delivery on the keyed view, and keeps the ledger's integrity |
| Webhook.DeliverAllRefines | api/src/routes/stripe-webhooks.ts:86-131 | the same for every sequence of deliveries |
| Webhook.ReplayAndRetry | api/src/routes/stripe-webhooks.ts:81-100 | a replay is a no-op; a delivery that threw left nothing; the inbox holds exactly the events that went through |
| Webhook.StatusByType | api/src/domain/stripe-mapping.ts:10-25 | what each status event type does to a fresh payment, its inbox row and the books, end to end: only `succeeded` posts, and it posts the payment's own amount |
| Webhook.StatusIgnored | api/src/routes/stripe-webhooks.ts:101-108 | a status event for an intent without a row is kept as unmatched; one for a settled payment, or an older one, is kept as processed and moves nothing |
| Webhook.MoneyOutByType | api/src/domain/stripe-mapping.ts:30-53 | refunds and disputes post their expense against the receivable once per reference, throw on a malformed currency, and move no payment; an unknown type leaves only an unhandled inbox row |
| Confluence.ConfluentIffCoherent | api/src/routes/stripe-webhooks.ts:86-131 | for any set of unseen events: all orders and repetitions leave equal statuses, inbox and ledger if and only if the events are coherent |
| Confluence.CoherentIsConfluent | api/src/domain/payments.ts:46-62 | the sufficient half: coherent events end the same way however delivered |
| Confluence.DeliveriesConverge | api/src/domain/ledger.ts:46-66 | the sufficient half on the tables themselves |
| Confluence.DeliveriesTrack | api/src/routes/stripe-webhooks.ts:101-131 | after any deliveries, each row, inbox row and ledger key is what the set delivered so far allows, whatever the order |
| Confluence.DeliveredStatus | api/src/domain/payments.ts:49-56 | however coherent events are delivered, a payment with a terminal event ends with that event's status |
| Confluence.TwoVerdictsDiverge | api/src/domain/payments.ts:46-48 | two different terminal events for one intent always leave two reachable outcomes |
| Confluence.StaleVerdictDiverges | api/src/domain/payments.ts:54-56 | so does a processing event later than every terminal one |
| Confluence.TwoEntriesDiverge | api/src/domain/ledger.ts:46-55 | so do two refund or dispute events that share a reference but not amount and currency |
| Confluence.SameIdDiverges | api/src/routes/stripe-webhooks.ts:87-100 | so do two accepted events that share an id |
| Interleaving.AtMostOneCharge | api/src/routes/stripe-webhooks.ts:86-131 | however statements interleave, roll back or wait: one inbox row per event id, one entry per (kind, reference), every committed entry balanced |
| Interleaving.AtMostOneChargeFromStart | api/migrations/0009_ledger.sql:24-31 | from empty tables, no intent ever has two charge entries |
| Interleaving.OneEffectPerCommit | api/src/routes/stripe-webhooks.ts:81-100 | a step shows nothing, or is a commit that shows its own new event id with the entry and payment change that transaction prepared |
| Interleaving.SoloIsDeliver | api/src/routes/stripe-webhooks.ts:86-131 | run alone, the statements do exactly what the atomic delivery does, and finish |
| Interleaving.RollbackLeavesNothing | api/src/routes/stripe-webhooks.ts:81-85 | rolled back after any number of statements, the system is as before, so a retry is a first delivery |
| Agreement.AgreementIffOneKind | api/src/routes/stripe-webhooks.ts:101-125 | for any set of unseen events on fresh payments: statuses and ledger agree after every schedule of their statements if and only if no payment has a succeeded event and another event of a different kind |
| Agreement.CommitSyncs | api/src/domain/payments.ts:57-62 | the sufficient half's heart: a commit publishes a charge and its succeeded status together, or neither |
| Agreement.RaceBreaksAgreement | api/src/domain/payments.ts:38-62 | the necessary half: from any such pair of events, a schedule that ends not succeeded with the charge posted |
| Provider.Client.List | api/src/domain/reconciliation.ts:157-177 | each call answers with a page of the list as grown by then |
| Provider.WindowExact | api/src/domain/reconciliation.ts:150-154 | the window holds exactly the listed transactions that satisfy the filter |
| Provider.AfterCursor | api/src/domain/reconciliation.ts:174-177 | a cursor finds its place again when the list has grown at the front |
| Reconciliation.NextPage | api/src/domain/reconciliation.ts:174-179 | the page after the last item seen continues the first call's snapshot, and `has_more` says whether it is done |
| Reconciliation.Reconciler.ListBalanceTransactions | api/src/domain/reconciliation.ts:134-182 | against a growing list: exactly the first call's window, in order, or a throw when it exceeds the cap; one page before the first ok run; at most ten calls |
| Reconciliation.Reconciler.ReconcileBatch | api/src/domain/reconciliation.ts:38-102 | the loop's ledger, fees and discrepancies equal the fold over the settlements it got through |
| Reconciliation.Reconciler.RecordFailedRun | api/src/domain/reconciliation.ts:104-120 | the failure is on record with the message or its first 500 characters, earlier rows stay, and neither the next window nor the recorded fees see it |
| Reconciliation.Reconciler.RunAndRecord | api/src/domain/reconciliation.ts:189-223 | list, reconcile and record, with a failure at any point, equals one run of the specified history |
| Reconciliation.ReconcileSplit | api/src/domain/reconciliation.ts:45-101 | two batches in a row are one batch: ledgers equal, fees add, discrepancies concatenate |
| Reconciliation.ReconcileKeeps | api/src/domain/reconciliation.ts:45-61 | a pass only adds fee entries, keeps the ledger sound, and fails exactly on a settlement that throws |
| Reconciliation.ReportIsVerdicts | api/src/domain/reconciliation.ts:70-98 | a report is the verdicts against the ledger the pass started from; fees posted on the way change none |
| Reconciliation.VerdictsEmpty | api/src/domain/reconciliation.ts:79-97 | a report is empty exactly when every settlement's verdict is, and never longer than the batch |
| Reconciliation.SecondRunIsQuiet | api/src/domain/reconciliation.ts:33-37 | a second full run posts nothing and reports the same discrepancies |
| Reconciliation.CrashThenRerun | api/src/domain/reconciliation.ts:45-61 | a crash after any prefix and a full re-run give the ledger and report of one clean pass, and fees that add up |
| Reconciliation.FailedRerun | api/src/domain/reconciliation.ts:45-61 | a pass that threw adds nothing when it is run again |
| Reconciliation.OrderFreeIffOneFeePerId | api/src/domain/ledger.ts:46-55 | every order of a batch leaves the same ledger if and only if unposted fees that share an id agree |
| Reconciliation.FeesAreBalanceChange | api/src/domain/reconciliation.ts:42-61 | the reported fees are the exact change of the fees balance, with ids repeated or not |
| Reconciliation.FeesAccounted | api/src/domain/reconciliation.ts:198-222 | over any history the balance change is what ok rows recorded plus what failed runs had posted |
| Reconciliation.RecordedWithinBalance | api/src/domain/reconciliation.ts:201-213 | recorded fees never exceed the balance, with equality exactly when no failed run had posted |
| Reconciliation.NewestOkIsNewest | api/src/domain/reconciliation.ts:138-144 | the watermark is the latest ok row's time, and there is none exactly when no run succeeded |
| RunHistory.ListingAnswers | api/src/domain/reconciliation.ts:138-181 | before the first ok run, the first hundred transactions; after one, all those created from an hour before it on, in order, or a throw over a thousand |
| RunHistory.RunAddsRow | api/src/domain/reconciliation.ts:193-222 | a run adds an ok row exactly when it lists its batch, gets through it and the insert works; else a failed row with the start of its message, or none if that insert fails as well |
| RunHistory.RowsTellRuns | api/src/domain/reconciliation.ts:201-213 | over any history, each row was added by one run: an ok row holds that batch's size, the run's time, the fees it added to the balance, and all it found against the ledger it started from |
| RunHistory.ReportIsFindings | api/src/domain/reconciliation.ts:70-98 | in every reachable state, a pass reports of its batch, in order, what the payment rows alone say of each settlement |
| RunHistory.DiscrepancyIff | api/src/domain/reconciliation.ts:79-97 | missing charge, other currency with both, other amount with both: each exactly when it applies to the payment row |
| RunHistory.RecordedReport | api/src/domain/reconciliation.ts:201-208 | the row a run records over the books carries those findings, and none exactly when the payment rows settle the whole batch |
| RunHistory.FeesOnBooks | api/src/domain/reconciliation.ts:46-61 | after a pass the ledger has, besides what it had, exactly one fee entry per new id of its batch, debiting fees and crediting the receivable by that settlement's fee |
| OverlappingRuns.SharedLedger | api/src/domain/reconciliation.ts:45-61 | runs that overlap leave the ledger of one pass over their settlements as they were mixed |
| OverlappingRuns.ReportsAreUndisturbed | api/src/domain/reconciliation.ts:70-98 | each overlapping run reports what it would have reported alone |
| OverlappingRuns.FeesCountedOnce | api/src/domain/reconciliation.ts:58-60 | the fees the overlapping runs report add up to the balance change, none counted twice |
| OverlappingRuns.InterleavingInvisible | api/src/domain/ledger.ts:46-55 | any two ways to mix the same settlements leave one ledger when fees per id agree |
| Watermark.EveryTransactionReconciled | api/src/domain/reconciliation.ts:122-182 | over overlapping, failing and throwing runs, every listed transaction newer than the unwindowed scans and no newer than some ok scan is in the batch an ok run reconciled |
| Watermark.SerialTransactionsReconciled | api/src/domain/reconciliation.ts:131-182 | without overlap, every transaction listed after the first ok snapshot, up to any ok snapshot, is in the batch of an ok run |
| Watermark.WithinAnHourIsTimely | api/src/domain/reconciliation.ts:125-125 | recording within an hour of the first page is soon enough, for any sub-second parts |
| Watermark.TimelyIffNoGap | api/src/domain/reconciliation.ts:150-154 | being timely is exact: it holds if and only if the next window leaves no gap |
| Watermark.FailureKeepsWindow | api/migrations/0011_reconciliation_status.sql:4-6 | a failed row leaves the next window where it was |
| Books.AlwaysAgree | api/src/routes/stripe-webhooks.ts:101-125 | in every reachable state a payment is succeeded exactly when its charge is in the ledger, with its amount and currency |
| Books.SucceededIffCharged | api/src/domain/ledger.ts:93-106 | what that says of the tables: one entry row, its currency, and its two postings |
| Books.VerdictMeansUnsettled | api/src/domain/reconciliation.ts:70-98 | a settlement gives no discrepancy exactly when its payment succeeded and, if unconverted, agrees; and never more than one |
| Books.CleanRunIffSettled | api/src/domain/reconciliation.ts:70-101 | a run reports nothing if and only if every settlement it checked is settled by the payment rows |
| Books.RevenueIsSucceededPayments | api/src/domain/ledger.ts:116-130 | in every reachable state reported revenue is minus the sum of the succeeded payments, and receivable is that sum less money out |
| Refunds.ScopedKeysDiffer | api/src/routes/payments.ts:202-202 | keys scoped to different payments, or made of different headers, differ |
| Refunds.HandleIsSteps | api/src/routes/payments.ts:185-252 | the whole request is its steps in a row, a crash after the provider call included |
| Refunds.ThreeBooksMatch | api/src/routes/payments.ts:225-243 | under any interleaving and crash each row is one provider refund of its amount, no refund has two rows, each entry has its refund, and once events are in each row its entry |
| Refunds.RequestBounds | api/src/routes/payments.ts:203-243 | a request adds nothing or one row of its actor within the amount left, and without the extra capability only up to the ceiling |
| Refunds.RefundedIffAllowed | api/src/domain/policy.ts:52-65 | with a provider that answers, a new request is refunded if and only if payment, key, amount and capability allow it, and by the amount asked or all that is left |
| Refunds.RefusedIff | api/src/routes/payments.ts:186-223 | every refusal before the provider call, with its reason, exactly when it applies, and none changes anything |
| Refunds.ReachedIff | api/src/routes/payments.ts:225-251 | a request that reaches the provider fails, dies or is refunded, each exactly when, with the provider's refund and the row it leaves |
| RefundBounds.EventIsDelivery | api/src/domain/ledger.ts:147-160 | a refund's event does to the books what the webhook does with it |
| Refunds.RefundsWithinAmount | api/src/domain/payments.ts:104-113 | over any serial run the rows of each payment sum to at most its amount |
| Refunds.RepeatChangesNothing | api/src/routes/payments.ts:201-206 | a key that has a row changes nothing, whatever amount or actor comes with it |
| Refunds.RefundedOnce | api/src/routes/payments.ts:201-206 | after a refund every retry answers with its amount and moves nothing |
| Refunds.CrashThenRetry | api/src/routes/payments.ts:225-243 | after a crash or a lost reply, the same request records the refund already made and makes no second |
| RefundLimits.RowsBoundIffOneOpen | api/src/routes/payments.ts:208-243 | schedules with at most k requests open on a payment are sure to keep its rows within its amount if and only if k is at most one |
| RefundLimits.CeilingIffOneOpen | api/src/routes/payments.ts:215-223 | the same for the ceiling: it is sure to bind every actor it is meant for if and only if k is at most one |
| RefundLimits.MoneyBoundIffNoneLost | api/src/routes/payments.ts:225-243 | with requests on the payment one at a time and at most l provider refunds losing theirs, the money sent is sure to stay within the amount if and only if l is zero |
| RefundBounds.RowsWithinBounds | api/src/routes/payments.ts:208-223 | if requests on one payment do not overlap, then under any mixture with other payments, crashes and events its rows stay within its amount, and within the ceiling after each row of an actor without the extra capability |
| RefundBounds.OverlapAddsUp | api/src/routes/payments.ts:208-243 | any two allowed requests on one payment that overlap both go through: the rows grow by exactly the sum |
| RefundBounds.MoneyWithinBounds | api/src/routes/payments.ts:225-243 | the same bounds for the money the provider sent, if no refund on the payment loses its request |
| RefundBounds.IssuedIsRowsAndRest | api/src/routes/payments.ts:225-243 | in every reachable state the money sent for a payment is its rows plus the provider refunds without a row |
| RefundBounds.EveryRefundHasItsRow | api/src/routes/payments.ts:225-243 | if none lost its request and none is open, every provider refund of the payment has its row |
| RefundBounds.LossOverspends | api/src/routes/payments.ts:225-243 | a refund lost after the provider made it, then one under a new key: the rows grow by the second, the money by both |
| RefundBounds.LostForGood | api/src/routes/payments.ts:208-223 | a lost refund that no longer fits never reaches the provider again, whatever happens later |
| RefundBounds.RecordableIff | api/src/routes/payments.ts:197-243 | some request can still give a provider refund its row if and only if the payment is refundable and the refund fits in what is left; the row then carries its id and amount |
| Refunds.Desk.CreateRefund | api/src/routes/payments.ts:225-230 | creates, replays or rejects by idempotency key |
| Refunds.Desk.Refund | api/src/routes/payments.ts:168-252 | the permission gate and the handler's branches, in order, equal the specified request on result and tables |
| Dispatch.SentWithinCap | api/src/domain/dispatch.ts:63-107 | under every interleaving, death and midnight, the jobs sent for a user's day exceed the cap by no more than the claims never counted on that day |
| Dispatch.CapHolds | api/src/domain/dispatch.ts:79-92 | with failures only in the send, on one day, at most twenty jobs of a user are ever sent, whatever mail of other days the table holds |
| Dispatch.NeverResent | api/src/domain/dispatch.ts:93-107 | a key marked sent is never about to be sent again |
| Dispatch.UncountedAddUp | api/src/domain/dispatch.ts:93-109 | the bound is reached: for every n there is a run with n uncounted claims that sends twenty and n |
| Dispatch.CapIffAllCounted | api/src/domain/dispatch.ts:79-109 | runs with n claims of the day uncounted are sure to keep the cap if and only if n is zero |
| Dispatch.RetrySkipsCount | api/src/domain/dispatch.ts:93-109 | one death and its retry: sent, marked, and never counted |
| Dispatch.DeliverAlone | api/src/domain/dispatch.ts:53-118 | what a lone attempt answers and leaves, case by case, with no mention of its steps |
| Dispatch.DeliveredIff | api/src/domain/dispatch.ts:63-117 | a lone attempt is a duplicate, capped, sent or throws, each exactly when the rows say so; only sent and thrown ones leave their row |
| Dispatch.SuppressedIsSkipped | api/src/domain/dispatch.ts:58-61 | a suppressed address claims and sends nothing |
| Dispatch.Dispatcher.DeliverEmail | api/src/domain/dispatch.ts:53-118 | the attempt's branches equal its steps, on outcome and rows |
| Credentials.PurgeIsInvisible | api/src/domain/purge.ts:20-51 | purges anywhere in a run change no other result, if nothing is dated before a purge that came earlier; otherwise the clock may go back and forth |
| Credentials.RunsAgree | api/src/domain/purge.ts:20-51 | the simulation behind it: a purged system answers as an unpurged one does |
| Credentials.PurgeInvisibleIffDated | api/src/domain/purge.ts:20-36 | that condition is exact for every lookup, of tokens, challenges, sessions, the session list and OAuth flows: over all tables, a purge hides nothing from it if and only if it is dated no more than a millisecond before the purge |
| Credentials.ConsumedOnce | api/src/domain/tokens.ts:48-67 | after a token or challenge was accepted, presenting it again answers nobody and changes nothing |
| Credentials.FlowConsumedOnce | api/src/routes/oauth.ts:104-114 | a flow that was handed out is gone, and nobody gets it again |
| CredentialHistory.FlowAnsweredIff | api/src/routes/oauth.ts:47-114 | over any run, purges included: a flow is answered if and only if its state was started for that provider under ten minutes ago and that provider has not tried it since; the answer is what it was started with |
| CredentialHistory.ListsWhatIsFound | api/src/domain/sessions.ts:126-136 | the list of a user's sessions is exactly what single lookups would find of theirs |
| CredentialHistory.PurgeLeaves | api/src/domain/purge.ts:20-43 | exactly which rows of each of the five tables a purge leaves, unchanged |
| Credentials.Tables.PurgeExpired | api/src/domain/purge.ts:20-51 | the five deletes leave what the specification keeps; each count is of the rows its own table lost |
| Credentials.Tables.IssueAuthToken | api/src/domain/tokens.ts:16-46 | supersedes the user's unconsumed tokens of the purpose, then adds the new one |
| Credentials.Tables.ConsumeAuthToken | api/src/domain/tokens.ts:51-67 | the guarded update as specified: who is answered and what row changes |
| Credentials.Tables.IssueMfaChallenge | api/src/domain/mfa.ts:174-185 | the new challenge is live at exactly the times before ten minutes from now; every other challenge is as it was |
| Credentials.Tables.ConsumeMfaChallenge | api/src/domain/mfa.ts:187-202 | consumes a live challenge and names its user, else changes nothing |
| Credentials.Tables.MintSession | api/src/domain/sessions.ts:27-48 | the new session, unused, is live at exactly the times before fourteen days from now; every other session is as it was |
| Credentials.Tables.FindSession | api/src/domain/sessions.ts:50-87 | finds live sessions only, and records the use when the last one is five minutes old |
| Credentials.Tables.RevokeOne | api/src/domain/sessions.ts:89-103 | the user's session of that id is live at no time any more; every other session is live exactly when it was |
| Credentials.Tables.RevokeAll | api/src/domain/sessions.ts:107-124 | of the user's sessions only the spared one is still live; sessions of others are live exactly when they were |
| CredentialHistory.SessionStep | api/src/domain/sessions.ts:75-124 | what any operation does to a session row: only its own lookup moves its last use, only a revocation of its user that names or does not spare it ends it |
| Credentials.Tables.ConsumeOAuthFlow | api/src/routes/oauth.ts:104-114 | takes a flow of that provider that is in date, once |
| CredentialHistory.AcceptedIffNewest | api/src/domain/tokens.ts:14-67 | over any run, purges included: a token is accepted if and only if it is the newest issued to that user for that purpose, first presented now, and in date |
| CredentialHistory.ChallengeAcceptedIffOpen | api/src/domain/mfa.ts:174-202 | a challenge is accepted if and only if it is presented for the first time within ten minutes of its issue |
| CredentialHistory.FoundMeansActive | api/src/domain/sessions.ts:50-61 | a found session was minted under thirty days ago, not revoked since, and minted or found within fourteen days |
| CredentialHistory.ActiveIsFound | api/src/domain/sessions.ts:75-84 | and conversely, up to the five minutes for which a use goes unrecorded |
| Mfa.AcceptedStepsIncrease | api/src/domain/mfa.ts:118-154 | section 5.2 of RFC 6238 over every interleaved run: within an enrolment a user's accepted steps strictly increase |
| Mfa.SessionRestsOnFactor | api/src/routes/auth.ts:132-171 | each session minted with a second factor has a consumed challenge of its user, issued by a login that read MFA as enabled, and an accepted step, or a code spent, of that same user |
| Mfa.OneFactorOneSession | api/src/routes/auth.ts:132-171 | no two sessions share a challenge or a factor, nor does a session share one with a factor's removal |
| Mfa.EnabledLoginNeverMints | api/src/routes/auth.ts:105-110 | a login that read MFA as enabled only ever issues a challenge, whatever else runs |
| Mfa.RetiredCodesStayOut | api/src/domain/mfa.ts:90-115 | a recovery code removed by a new enrolment or by turning MFA off never comes back |
| Mfa.SignsIn | api/src/routes/auth.ts:105-171 | a right code signs in under its own challenge, spends its step, and changes nothing else |
| Enrolment.AcceptedAgainIff | api/src/domain/mfa.ts:144-153 | over every interleaved run: an accepted step can be accepted again before the next confirmation if and only if a confirmation of the user went through since and no step as new was accepted after it |
| Enrolment.RepeatNeedsConfirmation | api/src/domain/mfa.ts:118-154 | between two acceptances of one step for one user, a confirmation of that user went through |
| Enrolment.GuardOpensIff | api/src/domain/mfa.ts:146-151 | in every reachable state the guard opens for an accepted step exactly then |
| Enrolment.OverlapReadmitsStep | api/src/domain/mfa.ts:76-100 | two overlapping confirmations of one secret let the same step of that secret be accepted twice |
| Enrolment.FactorGoesOffIff | api/src/routes/mfa.ts:36-103 | over every interleaved run, a user's factor goes off at a step if and only if a request with an accepted step or spent code of theirs finishes turning it off, or a set-up let through before the confirmation in force is staged |
| Enrolment.StaleSetup | api/src/routes/mfa.ts:36-44 | in every reachable state, a set-up still to be staged while the factor is on was let through before the confirmation in force |
| Enrolment.CodesReplaced | api/src/domain/mfa.ts:90-115 | a confirmation leaves its user exactly the new codes usable, turning the factor off leaves none, and nobody else's change |
| Enrolment.LateSetupTurnsOff | api/src/routes/mfa.ts:36-44 | the second way happens, with no step accepted and no code spent |
| Enrolment.CheckedSecretEnabledIff | api/src/domain/mfa.ts:74-100 | over any run between the load of a secret and a confirmation by its code: that secret is enabled if and only if nothing wrote the stored secret meanwhile, or the last write was the same secret |
| Enrolment.SecretIsLastWritten | api/src/domain/mfa.ts:50-116 | over any run, the stored secret is the last one staged, or none if the factor was turned off after that |
| Enrolment.UnconfirmedSecretEnabled | api/src/domain/mfa.ts:50-63 | a set-up staged in between has its secret enabled by a code of the earlier one |
| Mfa.TotpChecked | api/src/routes/auth.ts:141-151 | six digits are only ever tried as a TOTP: the request is proved or ends, and the recovery check is skipped |
| Mfa.RecoveryChecked | api/src/routes/mfa.ts:92-97 | any other code is only ever tried as a recovery code |
| Mfa.Store.CheckFactor | api/src/routes/auth.ts:141-151 | the choice between the two checks equals the statements of either route |
| Mfa.Enables | api/src/domain/mfa.ts:74-105 | enrolment in one piece: refused, or enabled with the last step cleared and fresh codes only |
| Mfa.Store.VerifyTotpForUser | api/src/domain/mfa.ts:118-154 | accepts exactly when a secret is stored, the code matches and its step is newer; then that step is the last |
| Mfa.Store.ConsumeRecoveryCode | api/src/domain/mfa.ts:156-172 | accepts exactly an unconsumed code of the user, and consumes it |
| Mfa.Store.SignInOrChallenge | api/src/routes/deps.ts:37-87 | mints a session exactly when MFA is off, else issues a challenge |
| Mfa.Store.LoginMfa | api/src/routes/auth.ts:132-171 | the route equals its five statements; a session results exactly when the factor was proved |
| Mfa.Store.Setup | api/src/routes/mfa.ts:36-44 | stages a secret without enabling it, unless MFA is on |
| Mfa.Store.EnableTotp | api/src/domain/mfa.ts:74-105 | the method equals the enrolment steps; it reports success exactly when enrolled |
| Mfa.Store.DisableTotp | api/src/routes/mfa.ts:86-103 | turns MFA off exactly when it is on and a factor is proved, and removes secret and codes |
| Accounts.LockoutRateBound | api/src/domain/accounts.ts:52-101 | over any serial run in which an account sees only wrong passwords, it compares at most ten per lock period begun |
| Accounts.BoundIsReached | api/src/domain/accounts.ts:88-99 | and a run that waits out each lock gets exactly that many |
| Accounts.CounterStaysBelow | api/src/domain/accounts.ts:76-101 | the stored count is below ten after every call, and other accounts are untouched |
| Accounts.SignsInIff | api/src/domain/accounts.ts:41-101 | the right password of an open account with one, and nothing else, signs in as its own user; every other answer exactly when it applies |
| Accounts.AnswerLeaves | api/src/domain/accounts.ts:67-99 | a success clears count and lock, the tenth failure locks for fifteen minutes, another failure counts, and no other account changes |
| Accounts.TenthWrongLocks | api/src/domain/accounts.ts:76-101 | after a success, whatever other accounts do, the tenth wrong attempt in a row locks and none before it does |
| Accounts.Store.AuthenticateUser | api/src/domain/accounts.ts:36-102 | the branches equal the specified call, and say when the stored hash is compared |
| Lockout.OverlappingRateBound | api/src/domain/accounts.ts:52-101 | with the lock check, the comparison, the count and the lock as separate statements and at most k attempts in flight: at most nine and k comparisons per lock period begun, for every schedule |
| LockoutReached.BoundIsReached | api/src/domain/accounts.ts:52-101 | the bound is exact: for every k and n a schedule with at most k in flight gets nine and k comparisons in each of n lock periods |
| LockoutReached.TenIffOneAtATime | api/src/domain/accounts.ts:76-99 | schedules with at most k attempts in flight are sure to keep ten comparisons per lock period begun if and only if k is at most one |
| Lockout.SoloIsAuthenticate | api/src/domain/accounts.ts:36-102 | with nothing else in flight the four statements change the account, and compare the hash, exactly as one whole call with a wrong password does |
| DenialAudit.DenialRateBound | api/src/plugins/authz-guard.ts:57-93 | a user's rows over a span that starts with no running window of theirs: at most eleven per minute begun, and eleven more per emptying of the map |
| DenialAudit.DenialRateBoundAnywhere | api/src/plugins/authz-guard.ts:57-93 | over any span, whatever counter the user has: ten more than that |
| DenialBounds.AnywhereIsReached | api/src/plugins/authz-guard.ts:69-80 | twenty-one rows in one millisecond, at the end of a running window and the start of the next |
| DenialBounds.EmptyingPassesBound | api/src/plugins/authz-guard.ts:69-73 | on any map one short of full, one emptying gives a user twenty-two rows in one instant |
| DenialBounds.BoundIffFewUsers | api/src/plugins/authz-guard.ts:47-73 | over a set of users, no span that starts with no running window passes eleven rows per minute begun if and only if they are fewer than the ceiling |
| DenialAudit.RowsProject | api/src/plugins/authz-guard.ts:65-91 | while the map is not emptied, a user's rows are those of a counter that sees that user alone |
| DenialAudit.WindowRows | api/src/plugins/authz-guard.ts:74-91 | one window writes the first eleven denials and flags exactly the eleventh |
| DenialAudit.DenialWrites | api/src/plugins/authz-guard.ts:65-91 | what one denial writes, flags and counts, and whose counters an emptying removes, from the map alone |
| DenialAudit.CountersBounded | api/src/plugins/authz-guard.ts:48-50 | the map never holds more than ten thousand counters |
| DenialAudit.FewUsersNeverClear | api/src/plugins/authz-guard.ts:69-73 | fewer distinct users than the ceiling is enough for it never to be emptied |
| DenialAudit.Hook.OnResponse | api/src/plugins/authz-guard.ts:60-92 | only an authenticated 403 counts; counters and rows change as specified |

## Left out

- Account deletion: it removes payments and keeps ledger entries, so the agreement of the books would need an exception.
- Books.AlwaysAgree: for atomic deliveries, since the payment row is read without a lock; `Agreement.AgreementIffOneKind` is the exact statement without that.
- Refunds.RequestBounds: one request at a time, because the code serializes nothing; `RefundBounds` says what holds when requests overlap or die. A limit the provider itself may put on refunds is only a refusal here.
- Accounts.LockoutRateBound: serial attempts only; `Lockout.OverlappingRateBound` is for overlapping ones, on one account with wrong passwords only.
- Watermark.SerialTransactionsReconciled: starts at the first ok run's snapshot; that run reads one page, and older history is left to a manual process by design.
- Dispatch.CapHolds: assumes one attempt per job key at a time, which is the job queue's promise; the queue is not part of this model.
- Confluence.ConfluentIffCoherent: compares statuses, inbox and ledger; the time of the last applied event is not compared, since it differs between orders.
- Reconciliation.Reconciler.RunAndRecord: database failures are inputs (after how many settlements, at the success insert, at the failure insert); which error is thrown is not modelled.
- The reprocessing of unmatched inbox rows: the repository has no code for it.
- Reversal entries and manual corrections: no code posts them.
- Cryptography: password hashing, encryption of secrets, TOTP generation, signature checks, the OAuth exchange.
- HTTP, cookies, schemas, permissions beyond refunds, metrics, tracing, email text, background scheduling and the web client.
- The payment create route beyond its row and key index, the provider's create call, and the answer when no provider is configured.
- Suppression is a set of addresses; how bounces and complaints fill it is not modelled.
- The device check at login, audit rows other than denials, and the counts that revocations return.
- The order of the session list, and the lookup of the session's user.
- Discrepancy reasons are constructors carrying the same figures, not the English text.
- Sums are unbounded integers: the program's conversion of database sums to doubles is exact up to 2^53 only.
- Ids are sequences of characters; an entry's id is its position in the table.
