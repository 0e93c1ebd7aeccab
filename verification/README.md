# Verified model of the club back end

This project models the parts of the back end that are concurrent protocols or bounded
arithmetic, and proves what they promise over every run.

Each protocol has the same three layers.

- A pure specification: a `State` (or `Db`) datatype, a total function `Apply(state, step)` with
  one step per database transaction or single conditional statement, and `Run(state, steps)`.
  A call with several awaits is cut at each of them, and what it has read so far is kept in the
  state, so every interleaving with stale reads is a sequence of steps.
- A class with the service's mutable fields. Each method does one step in the order in which
  the service does it and is proved to have exactly the effect `Apply` gives that step.
- Lemmas about all runs: an invariant that every step keeps, and the theorems that follow.

| Files | Subject |
|---|---|
| `Settlement`, `SettlementProof`, `InvoiceMoves`, `WebhookVerdicts`, `PaymentsService` | QR payments, webhooks, cash, refunds, overdue aging |
| `Sessions`, `SessionsProof`, `RevocationProof`, `GuardProof`, `AuthService` | logins, refresh rotation, revocation, the bearer guard |
| `ActionTokens` | single-use mail tokens and the purge of their records |
| `AuditQueue` | the batching audit buffer |
| `Outbox`, `OutboxWorker` | notification claims, leases, retries, channel fallback |
| `SharedStore`, `IpThrottle`, `Totp` | the expiring store and two of its clients |
| `SequentialCode`, `Tuition`, `BillingService`, `InvoiceTotals` | invoice numbers, monthly close, money bounds |
| `OrderRef`, `IpTracker` | payOS order codes, transfer descriptions, IPv6 buckets |
| `Common`, `Options` | shared notions: the money bound, white space, numerals, padding, optional values |

Conventions. Row indexes stand for primary keys, and in `Sessions` also for token hashes and
jtis, so that these are distinct by construction. The clock never goes back, and a statement reads one clock value at the
instant it commits; computations made before an await keep the value they read. A statement
refused by a unique index leaves every row as it was.

## Where the code differs from what is said about it

The model follows the code.

- `generateMonthly` is documented as one invoice per student and class
  (src/billing/billing.service.ts:283-285); it issues one per student (321-329), over all of the
  student's classes (`Tuition.CloseCompletes`, `Tuition.CloseKeepsTable`).
- The audit `flush` is documented as waiting and then draining
  (src/auth/audit/audit.service.ts:129). It starts a drain only when no promise is in flight. It
  leaves events queued if and only if the promise it finds has settled already with events behind
  it, or a batch fails (`AuditQueue.FlushDrainsIff`; `AuditQueue.FlushMissesLateRecord` gives the
  run).
- The overdue job is documented as if settlement only moved OVERDUE invoices to PAID
  (src/billing/overdue-invoice.job.ts:6-10). A refund or dispute moves PAID back to UNPAID, and
  the next pass of the job ages it again (`InvoiceMoves.RefundReopens`). Exactly the steps that
  take back a SUCCESS payment of a positive total leave PAID (`InvoiceMoves.StepMoves`).
- The fifth failure of a notification is FAILED at once, so the last delay of the documented
  backoff schedule (src/notifications/notification-outbox.service.ts:19) is never used
  (`Outbox.RetriesBounded`).
- Single use of a mail token is guaranteed only while a transaction follows its token check
  within 13 days and 1 ms (`ActionTokens.SingleUseIffPrompt`).
- SENT and FAILED are final only while outcomes are written within the ten-minute lease
  (`Outbox.OutcomesFinalIffTimely`).
- `nextSequentialCode` repeats a code at 2^53 (`SequentialCode.FreshIffExact`); the width of the
  invoice number column keeps the invoice table away from that (`Tuition.SuffixesExact`).
- `recomputeInvoiceStatus` would mark a payable invoice with total 0 as PAID, and that is the
  only case in which it is not a no-op (`SettlementProof.RecomputeIsNoOp`).
- A refresh already past its session check still writes a live refresh token onto a session
  that has been revoked since (`RevocationProof.RevokedSessionKeepsLiveToken`). A revoked session
  can gain a token if and only if such a call is in flight (`RevocationProof.GainsIffMinting`,
  `RevocationProof.ReuseSealsIff`). The token is the session's last and is never rotated
  (`RevocationProof.LateTokenIsLast`), and no access token of the session is admitted
  (`SessionsProof.RevokedSessionLocksOut`).
- A text in front of a reference hides some reference if and only if a match can begin in it
  (`OrderRef.ExtractFindsIff`). A single `V` directly in front shifts the match by one, which
  hides every reference but the one of ten V's (`OrderRef.LeadingVShifts`). The description built
  for a QR payment hides none (`OrderRef.DescriptionRoundTrips`).

## Model

| member | source | states |
|---|---|---|
| `SettlementProof.MoneyIsConserved` | src/billing/payments.service.ts:200-294 | after any run, an invoice's SUCCESS payments sum to 0 or to its total, never more; a positive total is PAID exactly when they sum to it; cancelled and refunded invoices have none |
| `SettlementProof.RecomputeIsNoOp` | src/billing/payments.service.ts:461-482 | after any run, re-deriving an invoice's status changes nothing, except exactly for a payable invoice with total 0 |
| `SettlementProof.ReportBalances` | src/billing/billing.service.ts:561-585 | after any run and for every period, the collected amount of the tuition report equals the total of its PAID invoices |
| `SettlementProof.AtMostOnePending` | src/billing/payments.service.ts:78-100 | after any run, two payments of one invoice are not both PENDING, no two payments share a gateway identifier or order reference, and PENDING payments have no identifier |
| `SettlementProof.StatusOnlyDescends` | src/billing/payments.service.ts:202-224 | over any run a payment's status only descends PENDING, FAILED, SUCCESS, DISPUTED, REFUNDED; it never comes back to SUCCESS; its identifier is written once; invoice, reference and amount are fixed |
| `SettlementProof.SupersededNeverSucceeds` | src/billing/payments.service.ts:78-100 | a PENDING payment superseded by a newer QR becomes FAILED and is SUCCESS in no later state |
| `SettlementProof.ExpiredNeverSucceeds` | src/billing/payments.service.ts:202-224 | an open payment past its expiry is SUCCESS in no later state |
| `SettlementProof.ExactTransferPays` | src/billing/payments.service.ts:200-294 | an exact, timely transfer for a payable invoice does settle it: payment SUCCESS, invoice PAID |
| `WebhookVerdicts.ClaimableIff` | src/billing/payments.service.ts:225-242 | a delivery may claim exactly a PENDING or FAILED payment with no identifier but its own, which no other payment has |
| `WebhookVerdicts.RefusedChangesNothing` | src/billing/payments.service.ts:239-242 | a delivery that may not claim its payment changes no row |
| `WebhookVerdicts.FailureIsRecorded` | src/billing/payments.service.ts:160-175 | a failed transfer leaves the payment FAILED with its identifier and note, and nothing else changes |
| `WebhookVerdicts.MismatchIsDisputed` | src/billing/payments.service.ts:177-192 | a transfer of another amount leaves it DISPUTED with both amounts, and nothing else changes |
| `WebhookVerdicts.LateIsDisputed` | src/billing/payments.service.ts:202-224 | an exact transfer at or after the expiry leaves it DISPUTED with the time of receipt |
| `WebhookVerdicts.UnpayableIsDisputed` | src/billing/payments.service.ts:249-258 | an exact, timely transfer for a cancelled or refunded invoice leaves it DISPUTED |
| `WebhookVerdicts.OverpaymentIsDisputed` | src/billing/payments.service.ts:267-285 | one that would exceed the total leaves it DISPUTED and a note of the amounts on both rows, the invoice status unchanged |
| `WebhookVerdicts.TransferSettles` | src/billing/payments.service.ts:287-293 | any other leaves it SUCCESS, and an open invoice PAID when its total is reached |
| `WebhookVerdicts.ExactTransfer` | src/billing/payments.service.ts:200-294 | on a reachable database an exact, timely transfer pays an open invoice, and for a paid one is disputed unless the total is 0 |
| `WebhookVerdicts.StatusHasCause` | src/billing/payments.service.ts:78-391 | a step that gives a payment a new status is one of that status's causes: a newer QR or failed transfer for FAILED, cash or an exact transfer for SUCCESS, a dispute or transfer for DISPUTED, a refund of a SUCCESS or DISPUTED payment for REFUNDED |
| `WebhookVerdicts.StatusIsCaused` | src/billing/payments.service.ts:78-391 | over every run a payment has the status it started with or one of its causes occurred in the run |
| `WebhookVerdicts.RefundedByRefund` | src/billing/payments.service.ts:364-391 | over every run a payment becomes REFUNDED only if some step of the run refunded it |
| `SettlementProof.RedeliveryIsNoOp` | src/billing/payments.service.ts:144-158 | committing a second delivery of an event changes no row, whatever it read, whatever happened since the first and whatever the clock says |
| `SettlementProof.RedeliveriesKeepRows` | src/billing/payments.service.ts:311-317 | any number of overlapping redeliveries of an answered event leave all payment and invoice rows as they were |
| `SettlementProof.DeliveryAnswers` | src/billing/payments.service.ts:210-242 | one delivery, with any verdict, leaves its payment in a state that answers the event |
| `SettlementProof.AnsweredIsNoOp` | src/billing/payments.service.ts:429-458 | the transaction of an answered event changes nothing |
| `SettlementProof.AnsweredIsStable` | src/billing/payments.service.ts:429-458 | an event stays answered in every later state |
| `SettlementProof.StepKeepsInv` | src/billing/payments.service.ts:47-399 | every step of every operation keeps the invariant: amounts equal totals, unique indexes, one PENDING, status equals settled amount, snapshots stale only in mutable columns |
| `SettlementProof.RunKeepsInv` | src/billing/payments.service.ts:47-399 | every run keeps it |
| `SettlementProof.DeliverKeepsInv` | src/billing/payments.service.ts:200-294 | the webhook transaction keeps it, with any verdict |
| `SettlementProof.CommitQrKeepsInv` | src/billing/payments.service.ts:71-101 | the QR transaction keeps it |
| `SettlementProof.CommitCashKeepsInv` | src/billing/payments.service.ts:330-353 | the cash transaction keeps it |
| `SettlementProof.CommitOutcomeKeepsInv` | src/billing/payments.service.ts:370-391 | refunds and disputes keep it |
| `InvoiceMoves.StepMoves` | src/billing/payments.service.ts:364-399 | a step takes an invoice out of PAID, to UNPAID, if and only if it refunds or disputes a SUCCESS payment of that invoice with a positive total; OVERDUE is left for PAID only; CANCELLED and REFUNDED never change |
| `InvoiceMoves.PaidUntilTakenBack` | src/billing/payments.service.ts:370-391 | over any run an invoice stays PAID throughout if and only if no step takes its receipt back |
| `InvoiceMoves.OverdueOnlyGetsPaid` | src/billing/overdue-invoice.job.ts:6-10 | over any run without a refund or dispute of the invoice, OVERDUE stays or becomes PAID |
| `InvoiceMoves.ClosedStaysClosed` | src/billing/payments.service.ts:461-482 | CANCELLED and REFUNDED hold throughout every run |
| `InvoiceMoves.RefundReopens` | src/billing/overdue-invoice.job.ts:23-32 | a run in which a refund moves PAID to UNPAID and the aging job then to OVERDUE |
| `PaymentsService.PaymentsService.constructor` | src/billing/payments.service.ts:40-45 | a database without payments satisfies the invariant |
| `PaymentsService.PaymentsService.ReadForQr` | src/billing/payments.service.ts:47-63 | accepts exactly UNPAID and OVERDUE invoices and keeps total, reference and an expiry thirty minutes ahead; not found and conflict change nothing |
| `PaymentsService.PaymentsService.CreateQrPayment` | src/billing/payments.service.ts:71-101 | accepted exactly if the invoice is still open and the reference unused; then every PENDING payment of the invoice is FAILED and expired and one PENDING payment is added, and no other row changes |
| `PaymentsService.PaymentsService.ReadForCash` | src/billing/payments.service.ts:321-329 | keeps the invoice total as read |
| `PaymentsService.PaymentsService.ConfirmCash` | src/billing/payments.service.ts:330-353 | succeeds exactly if the invoice is still open and the reference unused; then the invoice is PAID with one SUCCESS receipt over its total, and otherwise nothing changes |
| `PaymentsService.PaymentsService.ReadForWebhook` | src/billing/payments.service.ts:144-158 | goes on exactly for a PENDING payment or a FAILED one with another identifier, and keeps the row as read |
| `PaymentsService.PaymentsService.TransitionReceipt` | src/billing/payments.service.ts:429-458 | claims and writes exactly when the row is claimable and the identifier is free |
| `PaymentsService.PaymentsService.Decline` | src/billing/payments.service.ts:160-192 | recorded exactly if the payment can be claimed: a failed transfer as FAILED, one of another amount as DISPUTED with both amounts, each with its answer, and no other column changes |
| `PaymentsService.PaymentsService.HandleWebhook` | src/billing/payments.service.ts:160-318 | the new rows are those of the delivery step; the answer is read off the row it left, and SUCCESS exactly when this call settled the payment |
| `PaymentsService.PaymentsService.Settle` | src/billing/payments.service.ts:200-294 | claim-then-judge as coded equals the judged delivery of the specification |
| `PaymentsService.PaymentsService.SettleClaim` | src/billing/payments.service.ts:226-293 | claiming as SUCCESS first and disputing afterwards leaves what the judged delivery leaves |
| `PaymentsService.PaymentsService.MarkOutcome` | src/billing/payments.service.ts:364-399 | refuses exactly what is neither a SUCCESS payment nor a refund of a DISPUTED one; otherwise stores and answers REFUNDED for a refund and DISPUTED for a dispute, keeps the old note when none is given, and re-derives the invoice |
| `PaymentsService.PaymentsService.RecomputeInvoiceStatus` | src/billing/payments.service.ts:461-482 | afterwards an open or PAID invoice is PAID exactly when its SUCCESS payments cover the total, a closed one is untouched, nothing else changes, and a second call changes nothing |
| `PaymentsService.PaymentsService.MarkOverdue` | src/billing/overdue-invoice.job.ts:23-32 | exactly the UNPAID invoices past their due date become OVERDUE, and no other column or row changes |
| `SessionsProof.OneHolderPerSession` | src/auth/auth.service.ts:353-410 | in every interleaving, live refresh tokens plus rotations past their consume number at most one per session |
| `RevocationProof.OnePairPerToken` | src/auth/auth.service.ts:370-409 | a token yields at most one successor, of the same session and only once consumed, no rotation of it is then under way, and the session has exactly as many refresh tokens as access tokens and owed signatures: at most one new pair per token |
| `RevocationProof.TokensComeInPairs` | src/auth/auth.service.ts:325-410 | in every interleaving and for every session, access tokens plus signatures still owed number exactly its refresh tokens |
| `RevocationProof.GainsIffMinting` | src/auth/auth.service.ts:382-404 | from any reachable state, some run adds a refresh token to a revoked session if and only if a refresh of it is past its session check and has not yet written its successor |
| `RevocationProof.SealedNeverGains` | src/auth/auth.service.ts:382-404 | a revoked session without such a call gains no token in any run |
| `RevocationProof.LateTokenIsLast` | src/auth/auth.service.ts:390-404 | the token such a call writes is live, is the last the session ever gains and has no successor in any run |
| `RevocationProof.RevokedSessionKeepsLiveToken` | src/auth/auth.service.ts:382-404 | a run that ends with every call done, the session revoked and a live refresh token on it |
| `RevocationProof.ReuseSealsIff` | src/auth/auth.service.ts:896-906 | after a re-use has ended the sessions of its user, any of them can gain a refresh token if and only if such a call is in flight |
| `SessionsProof.ReuseEndsSessions` | src/auth/auth.service.ts:353-378 | once a call that presented a consumed token ends, every session and refresh token its user had at presentation is revoked, whatever else ran |
| `SessionsProof.PunishmentIsTotal` | src/auth/auth.service.ts:896-906 | sessions opened up to the moment of the revocation are revoked too, for good |
| `SessionsProof.RefreshRotates` | src/auth/auth.service.ts:353-410 | an undisturbed refresh of a live token revokes it and yields one successor and one access token, with the user's version and the computed expiries |
| `SessionsProof.LoginIsAdmitted` | src/auth/auth.service.ts:325-346 | an undisturbed login passes all three checks of the guard and holds exactly one refresh token |
| `SessionsProof.RevokedSessionLocksOut` | src/auth/guards/jwt-auth.guard.ts:39-53 | no access token of a revoked session ever passes the session check, including tokens signed later by a refresh in flight |
| `GuardProof.LapsedNeverRotated` | src/auth/auth.service.ts:367-369 | no run gives a successor to an expired refresh token that no call had read before it expired |
| `GuardProof.LapsedIsRefused` | src/auth/auth.service.ts:353-369 | presenting an expired token ends the call with every row as before |
| `GuardProof.AdmittedIff` | src/auth/guards/jwt-auth.guard.ts:39-53 | the guard admits exactly an unexpired token that is not denied, of an active user of the same version, with an open, unexpired session |
| `GuardProof.RefusedForGood` | src/auth/guards/jwt-auth.guard.ts:39-53 | an expired token, one of a deleted user and one of an expired session are refused in every later state |
| `GuardProof.InactiveLocksOut` | src/auth/guards/jwt-auth.guard.ts:46-48 | no token of an inactive user is admitted until a step activates the user again |
| `SessionsProof.TrustChangeLocksOut` | src/auth/admin-users.service.ts:140-167 | after a password-version bump, a token that passes the guard's two reads, made at different times, carries a newer version and belongs to a session opened after it |
| `SessionsProof.PwdVersionBound` | src/auth/domain/token.service.ts:58-79 | after any run, no access token carries a version above its user's |
| `SessionsProof.DeniedForever` | src/auth/auth.service.ts:418-451 | a token put on the denylist is never admitted again |
| `SessionsProof.LogoutTtlCovers` | src/auth/domain/token.service.ts:135-142 | the denylist lifetime computed at logout reaches the token's expiry, however late it is written |
| `SessionsProof.StepKeepsInv` | src/auth/auth.service.ts:325-485 | every step of every call keeps references, versions, denylist bounds, exclusivity of holders and lineage of tokens |
| `SessionsProof.RunKeepsInv` | src/auth/auth.service.ts:325-485 | every run keeps them |
| `SessionsProof.RunRowsEvolve` | src/auth/auth.service.ts:325-485 | over any run, revocation is final and versions never fall |
| `SessionsProof.RunKeepsOwes` | src/auth/auth.service.ts:353-378 | the revocation a re-use owes is neither lost nor overtaken |
| `SessionsProof.ConsumeKeepsHolders` | src/auth/auth.service.ts:370-381 | the atomic consume hands the session's hold from the row to the rotation |
| `SessionsProof.MintKeepsHolders` | src/auth/auth.service.ts:391-404 | minting hands it back to one new row |
| `AuthService.AuthService.constructor` | src/auth/auth.service.ts:77-92 | a database without sessions satisfies the invariant |
| `AuthService.AuthService.ReadUserForSession` | src/auth/auth.service.ts:325-328 | keeps the user row as read |
| `AuthService.AuthService.CreateSession` | src/auth/auth.service.ts:329-340 | adds one session that is not revoked, with its first refresh token |
| `AuthService.AuthService.SignAccessToken` | src/auth/domain/token.service.ts:58-79 | signs with the version that was read, not the current one |
| `AuthService.AuthService.PresentToken` | src/auth/auth.service.ts:353-361 | an unknown token changes nothing |
| `AuthService.AuthService.ReadRefreshToken` | src/auth/auth.service.ts:355-369 | a revoked token leads to the revocation of everything, expired or not; an expired one ends the call with every row as before; any other goes on with the user row as read |
| `AuthService.AuthService.ConsumeRefreshToken` | src/auth/auth.service.ts:370-381 | wins exactly when the token was not yet revoked; the loser goes on to revoke everything, and the winner goes on only for an active, verified user that is not deleted |
| `AuthService.AuthService.ReadSessionForRefresh` | src/auth/auth.service.ts:382-389 | a rotation ends at a revoked session; a session past its expiry hands its own expiry on, any other a full lifetime |
| `AuthService.AuthService.MintRefreshToken` | src/auth/auth.service.ts:390-404 | adds one live successor of the consumed token |
| `AuthService.AuthService.RevokeEverythingForUser` | src/auth/auth.service.ts:896-906 | every session and refresh token of the user is revoked, and nothing else changes |
| `AuthService.AuthService.BeginLogout` | src/auth/auth.service.ts:412-418 | keeps the whole seconds left to the token, and at least one, as the denylist lifetime |
| `AuthService.AuthService.LogoutTransaction` | src/auth/auth.service.ts:419-428 | the session of the caller's token and exactly the refresh tokens of that session are revoked |
| `AuthService.AuthService.Deny` | src/auth/auth.service.ts:429-451 | the denylist entry lasts at least as long as the token |
| `AuthService.AuthService.RevokeOneSession` | src/auth/auth.service.ts:471-479 | finds exactly a session of the caller that is not revoked, and revokes it |
| `AuthService.AuthService.DropSessionTokens` | src/auth/auth.service.ts:480-483 | then revokes all its refresh tokens |
| `AuthService.AuthService.BumpAndRevoke` | src/auth/admin-users.service.ts:140-167 | raises the version by one, sets the active flag when one is given, revokes all sessions and tokens of the user and no others, in one step |
| `AuthService.AuthService.DeactivateUser` | src/auth/auth.service.ts:784-809 | marks the user deleted and inactive and revokes all sessions and tokens of the user and no others, in one step |
| `ActionTokens.EffectAtMostOnce` | src/auth/auth.service.ts:206-243 | over any run with purges, a mail token takes effect at most once, if transactions follow their check within 13 days and 1 ms |
| `ActionTokens.SingleUseIffPrompt` | src/auth/used-token.purge.ts:4-29 | a delay bound guarantees single use in all runs if and only if it is at most 13 days and 1 ms |
| `ActionTokens.LateRunRepeats` | src/auth/used-token.purge.ts:21-29 | a concrete run, one millisecond later, in which a token takes effect twice |
| `ActionTokens.RunKeepsInv` | src/auth/auth.service.ts:137-157 | every prompt run keeps that a token that took effect still has its used row or was issued more than 14 days ago |
| `ActionTokens.UsedTokens.ParseActionToken` | src/auth/auth.service.ts:857-872 | accepts exactly tokens issued for the purpose before their expiry, 900 s for a reset and 86,400 s otherwise, in whole seconds |
| `ActionTokens.UsedTokens.ConsumeToken` | src/auth/auth.service.ts:745-782 | the effect and a used row with seven days of retention are written together, exactly when there was no used row |
| `ActionTokens.UsedTokens.PurgeOnce` | src/auth/used-token.purge.ts:21-29 | exactly the rows more than seven days past their retention are deleted |
| `AuditQueue.LogIsExact` | src/auth/audit/audit.service.ts:93-167 | in every interleaving, with lost acknowledgements, the stored log is a prefix of the accepted events, in-flight batch and queue are a suffix, together they cover all of them, no event is stored twice, and at most 10,050 are buffered |
| `AuditQueue.FlushStoresEverything` | src/auth/audit/audit.service.ts:156-167 | if every batch is stored, a drain under way ends with all accepted events stored in order |
| `AuditQueue.FlushDrainsIff` | src/auth/audit/audit.service.ts:129-167 | when the promise a flush call waits for settles, the queue is empty if and only if the call did not find a settled promise with events behind it and no batch failed; an empty queue means every accepted event is stored |
| `AuditQueue.DrainEnds` | src/auth/audit/audit.service.ts:156-167 | a drain ends with an empty queue if and only if it ends with a stored batch |
| `AuditQueue.FlushMissesLateRecord` | src/auth/audit/audit.service.ts:129-154 | a run in which a flush waits for nothing and an event stays queued after it |
| `AuditQueue.InsertExtends` | src/auth/audit/audit.service.ts:156-167 | inserting an overlapping batch without duplicates extends the stored prefix by exactly the new events |
| `AuditQueue.CommitExtends` | src/auth/audit/audit.service.ts:156-167 | a committed batch keeps the log a prefix that meets the queue, acknowledged or not |
| `AuditQueue.StepKeepsInv` | src/auth/audit/audit.service.ts:111-167 | every step keeps the invariant behind it |
| `AuditQueue.RunKeepsInv` | src/auth/audit/audit.service.ts:111-167 | every run keeps it |
| `AuditQueue.AuditService.RecordEvent` | src/auth/audit/audit.service.ts:111-127 | keeps the event exactly when fewer than 10,000 are queued, behind everything pending, and starts a drain of fifty exactly when it is the fiftieth and none is in flight |
| `AuditQueue.AuditService.RequestFlush` | src/auth/audit/audit.service.ts:130-154 | starts a drain only when none is in flight |
| `AuditQueue.AuditService.ContinueDrain` | src/auth/audit/audit.service.ts:156-158 | takes the first fifty queued events, or all if fewer, as the batch in flight: batch and queue together are the old queue in order; the drain ends exactly when nothing was queued |
| `AuditQueue.AuditService.OnBatchStored` | src/auth/audit/audit.service.ts:157-160 | every event of the batch is in the log, which only grows, and the drain goes on with the queue |
| `AuditQueue.AuditService.OnBatchFailed` | src/auth/audit/audit.service.ts:161-165 | puts the batch back in front, whether or not it had been committed |
| `AuditQueue.AuditService.OnFlushCleared` | src/auth/audit/audit.service.ts:150-154 | the next flush may start |
| `Outbox.RetriesBounded` | src/notifications/notification-outbox.service.ts:228-244 | in every run, late outcomes included, queued and sending rows have fewer than five retries, failed rows exactly five |
| `Outbox.NoRowHeldTwice` | src/notifications/notification-outbox.service.ts:110-143 | with outcomes written within the lease, no two leases are on one row |
| `Outbox.FailedIffExhausted` | src/notifications/notification-outbox.service.ts:228-244 | then a row is FAILED exactly when its retries are five, and retries equal the failures recorded |
| `Outbox.FailureCountsOnce` | src/notifications/notification-outbox.service.ts:228-244 | then each recorded failure raises the stored retries by exactly one |
| `Outbox.AttemptsAreSpaced` | src/notifications/notification-outbox.service.ts:17-20 | then attempt k + 1 is claimed no earlier than 30 * 2^(k-1) s after failure k, and the fifth no earlier than 450 s after the first failure |
| `Outbox.RunKeepsFinal` | src/notifications/notification-outbox.service.ts:184-244 | then SENT and FAILED rows never change again |
| `Outbox.OutcomesFinalIffTimely` | src/notifications/notification-outbox.service.ts:110-143 | a bound on the time from claim to outcome makes outcomes final in all runs if and only if it is at most the lease |
| `Outbox.LateOutcomeUndoesDelivery` | src/notifications/notification-outbox.service.ts:228-244 | a concrete run, one millisecond over the lease, in which a SENT row is queued again |
| `Outbox.RunKeepsInv` | src/notifications/notification-outbox.service.ts:110-244 | every timely run keeps leases exclusive, retries equal to failures and failures spaced |
| `OutboxWorker.FirstEligible` | src/notifications/notification-outbox.service.ts:124-128 | the oldest due queued row, or none exactly when none is due |
| `OutboxWorker.ChannelChain` | src/notifications/notification-outbox.service.ts:145-164 | the chain is the end of ZNS, SMS, EMAIL that begins with the channel, and EMAIL alone for any other |
| `OutboxWorker.SendAlong` | src/notifications/notification-outbox.service.ts:184-226 | delivers through the first configured channel of the chain and no other; a failure there is not passed on to later channels |
| `OutboxWorker.NotificationOutbox.EnqueueRow` | src/notifications/notification-outbox.service.ts:51-63 | appends one queued row |
| `OutboxWorker.NotificationOutbox.EnqueueInAppRow` | src/notifications/notification-outbox.service.ts:66-82 | appends one row that is already sent |
| `OutboxWorker.NotificationOutbox.RecoverStale` | src/notifications/notification-outbox.service.ts:112-122 | exactly the sending rows claimed, or created if never claimed, more than ten minutes ago are queued again |
| `OutboxWorker.NotificationOutbox.ClaimNext` | src/notifications/notification-outbox.service.ts:123-137 | claims the oldest due queued row and remembers its retries, or shows that none is due |
| `OutboxWorker.NotificationOutbox.RecordSent` | src/notifications/notification-outbox.service.ts:196-213 | the lease is given up and the row is SENT via the channel with its due time cleared, whatever its status was; within the lease the invariant of timely runs is kept |
| `OutboxWorker.NotificationOutbox.RecordFailure` | src/notifications/notification-outbox.service.ts:228-244 | counts one more than the retries read at the claim, FAILED from the fifth on and otherwise queued for 30, 60, 120 or 240 s later; the retry cap is kept always, and within the lease the stored retries rise by one |
| `OutboxWorker.NotificationOutbox.DeliverRow` | src/notifications/notification-outbox.service.ts:184-226 | records SENT via the first configured channel of the row's chain if that channel answered well, and a failure if it did not or none is configured, and gives the lease up |
| `OutboxWorker.NotificationOutbox.Attempt` | src/notifications/notification-outbox.service.ts:123-137 | one turn claims a due row and records what its first configured channel answered, or shows that none is due |
| `OutboxWorker.NotificationOutbox.ProcessBatch` | src/notifications/notification-outbox.service.ts:110-143 | a pass with any delivery times is a run of at most fifty turns, each recorded as its row's first configured channel answered, gives up every lease, is timely if and only if every delivery took at most ten minutes, and stops early only when stopping or when nothing is due |
| `SharedStore.LazyRefines` | src/common/shared-store.ts:36-85 | for every sequence of calls in time order, the lazily expiring store answers like the map in which expired entries are absent |
| `SharedStore.LazyRefinesOnce` | src/common/shared-store.ts:36-85 | one call gives the same reply and the same visible entries |
| `SharedStore.InMemorySharedStore.GetEntry` | src/common/shared-store.ts:66-76 | returns exactly the visible entry and drops an expired one |
| `SharedStore.InMemorySharedStore.GetValue` | src/common/shared-store.ts:36-38 | answers like the reference map and changes nothing visible |
| `SharedStore.InMemorySharedStore.SetValue` | src/common/shared-store.ts:40-45 | at every time within the lifetime the value is what is visible under the key, and nothing after it; other keys are as before |
| `SharedStore.InMemorySharedStore.DeleteKey` | src/common/shared-store.ts:47-49 | at every time the key is not visible and the other keys are as before |
| `SharedStore.InMemorySharedStore.IncrementKey` | src/common/shared-store.ts:51-60 | the reply is one more than the visible number, or one; the expiry of a visible entry is kept, and otherwise a new window starts |
| `SharedStore.InMemorySharedStore.SweepExpired` | src/common/shared-store.ts:78-85 | the loop leaves exactly the visible entries |
| `IpThrottle.AtMostTwiceMax` | src/auth/auth-ip-throttle.guard.ts:31-39 | over every call sequence, at most 2 * max requests of a tracker are admitted in any interval of one window length |
| `IpThrottle.AtMostMaxPerWindow` | src/auth/auth-ip-throttle.guard.ts:31-39 | within one counting window at most max, less those already counted |
| `IpThrottle.RunKeepsSpread` | src/auth/auth-ip-throttle.guard.ts:31-39 | admissions that are 2 * max apart are more than a window apart |
| `IpThrottle.EnterKeepsOk` | src/auth/auth-ip-throttle.guard.ts:31-39 | one request keeps the counter in step with the admissions of the current and previous window |
| `IpThrottle.AuthIpThrottleGuard.CanActivate` | src/auth/auth-ip-throttle.guard.ts:31-39 | one increment of the tracker's counter, admitted exactly while fewer than max were counted in the window |
| `Totp.AcceptedOncePerStep` | src/auth/mfa/totp.service.ts:72-91 | a code accepted for a user is not accepted again, under any secret, while a time step that the first acceptance could match is within skew |
| `Totp.VerdictIff` | src/auth/mfa/totp.service.ts:65-104 | from the store's visible entries: locked from five failures, accepted exactly for an unreplayed code of the current or a neighbouring step, and locked by the fifth rejection |
| `Totp.VerifyRecords` | src/auth/mfa/totp.service.ts:72-104 | a locked user leaves the store as visible before, an acceptance clears the counter and guards the code for 120 s, a rejection counts one more in a window of five minutes |
| `Totp.TrimDropsBlanks` | src/auth/mfa/totp.service.ts:74-74 | white space around a code is dropped and nothing else |
| `Totp.FailuresNeverExceedFive` | src/auth/mfa/totp.service.ts:65-104 | in every run no user's failure counter exceeds five |
| `Totp.AcceptanceGuards` | src/auth/mfa/totp.service.ts:72-91 | an acceptance leaves the replay guard in place for 120 s |
| `Totp.RunKeepsGuard` | src/auth/mfa/totp.service.ts:72-91 | no step of any user removes a replay guard before its end |
| `Totp.KeysDiffer` | src/auth/mfa/totp.service.ts:17-19 | failure, replay and pending keys never coincide, whatever the user and code texts |
| `Totp.TotpService.StashPendingSecret` | src/auth/mfa/totp.service.ts:55-57 | a take at any time within ten minutes would return the secret, and none after that; no other entry changes |
| `Totp.StashedIsTakenOnce` | src/auth/mfa/totp.service.ts:55-63 | over any run without another stash or take of the user, a take returns the stashed secret exactly within ten minutes, and a second take nothing |
| `Totp.TotpService.TakePendingSecret` | src/auth/mfa/totp.service.ts:59-63 | returns exactly the visible pending secret of the user and removes it |
| `Totp.TotpService.IsLocked` | src/auth/mfa/totp.service.ts:65-70 | locked exactly from five failures on |
| `Totp.TotpService.VerifyCode` | src/auth/mfa/totp.service.ts:72-91 | verdict and new store are those of the verify step |
| `Totp.TotpService.RegisterFailure` | src/auth/mfa/totp.service.ts:98-104 | counts one failure and answers that the user is locked when it is the fifth |
| `SequentialCode.NextCodeIsFresh` | src/billing/sequential-code.ts:9-21 | below 2^53 the next code stands for the largest suffix plus one and is not in use |
| `SequentialCode.NextCodeIsConsecutive` | src/billing/sequential-code.ts:9-21 | and raises the largest suffix by exactly one |
| `SequentialCode.FreshIffExact` | src/billing/sequential-code.ts:9-21 | a bound on suffixes guarantees a fresh code for all tables if and only if it is below 2^53 |
| `SequentialCode.RoundingRepeatsCode` | src/billing/sequential-code.ts:9-21 | a table in which the code in use is proposed again |
| `SequentialCode.CodeCountsForItself` | src/billing/sequential-code.ts:9-21 | a printed code parses back to its number, padding included, below 10^21, and to a single digit from there on, where numbers print with an exponent |
| `SequentialCode.ParseIntReads` | src/billing/sequential-code.ts:15-16 | a suffix is read past white space and sign up to its first other character, and not at all if it is infinite |
| `SequentialCode.SignificandRoundsBack` | src/billing/sequential-code.ts:20-20 | the digits printed for a large number round back to it |
| `SequentialCode.SignificandIsShortest` | src/billing/sequential-code.ts:20-20 | no fewer digits would |
| `SequentialCode.CodeFitsIff` | src/billing/sequential-code.ts:9-21 | a number printed in decimal has at most eleven characters after its prefix exactly below 10^11 |
| `SequentialCode.ShortSuffixIsExact` | src/billing/sequential-code.ts:9-21 | eleven characters never hold a suffix that rounds |
| `SequentialCode.NextSequentialCode` | src/billing/sequential-code.ts:9-21 | the loop computes the next code, which is not in use when the largest suffix is below 2^53 |
| `Tuition.CloseCompletes` | src/billing/billing.service.ts:331-375 | a close that is not aborted bills every student, created plus skipped equals the students, each new row carries exactly the student's items and their sum, all whole numbers that fit, for students not billed before, numbered consecutively |
| `Tuition.CloseAbortsIff` | src/billing/billing.service.ts:331-375 | a close aborts if and only if some student's total, or an item of a new invoice, is not a whole number up to 2^31 - 1, or the number in turn needs more than the column's twenty characters |
| `Tuition.RerunChangesNothing` | src/billing/billing.service.ts:331-375 | a rerun never changes the table, and reports every student as existing exactly unless the number space is used up |
| `Tuition.CloseKeepsTable` | src/billing/billing.service.ts:331-375 | finished or aborted, a close keeps one invoice per student and period, unique numbers and number width, and removes nothing |
| `Tuition.CloseSkipsBilled` | src/billing/billing.service.ts:331-375 | students already billed add no row |
| `Tuition.CloseAddsOwnRows` | src/billing/billing.service.ts:331-375 | finished or aborted, every row added is for a listed student not billed before, over exactly the student's items |
| `Tuition.FitsIff` | prisma/schema.prisma:532-534 | the money columns take exactly the whole numbers from 0 to 2^31 - 1 |
| `Tuition.NextNoShape` | src/billing/billing.service.ts:105-116 | a number begins with INV and the year and has at least four more characters |
| `Tuition.NextNoIsNew` | src/billing/billing.service.ts:105-116 | the next invoice number is new and one above the largest |
| `Tuition.SuffixesExact` | prisma/schema.prisma:519-555 | in a four-digit year the number column keeps all suffixes exact |
| `Tuition.ItemsAddUp` | src/billing/billing.service.ts:334-343 | a student's items sum to the rates of the student's enrollments |
| `Tuition.SelectExact` | src/billing/billing.service.ts:309-320 | the query returns exactly the enrollments of rated classes, not left, begun before the month's end, of active students |
| `Tuition.BillableExactly` | src/billing/billing.service.ts:309-329 | a student is billed exactly when some such enrollment is the student's |
| `Tuition.Students` | src/billing/billing.service.ts:324-329 | lists each enrolled student exactly once |
| `Tuition.StudentsInOrder` | src/billing/billing.service.ts:324-329 | students are listed in the order of their first enrollment |
| `Tuition.ClassesInOrder` | src/billing/billing.service.ts:324-329 | a student's classes are kept in query order, none left out |
| `BillingService.CollectRates` | src/billing/billing.service.ts:298-307 | keeps exactly the classes whose setting is a positive number, fractional or not, and lists the others in request order |
| `BillingService.UnratedInOrder` | src/billing/billing.service.ts:298-307 | the skipped classes keep the order of the request |
| `BillingService.GroupByStudent` | src/billing/billing.service.ts:324-329 | the grouping loop lists each student's classes in query order |
| `BillingService.AddUp` | src/billing/billing.service.ts:343-343 | the total is the sum of the items |
| `BillingService.CloseBillsOwed` | src/billing/billing.service.ts:309-375 | finished or aborted, every row added is over exactly the summed rates of its student's billed enrollments; finished, everyone with one is billed |
| `BillingService.BillIsOwed` | src/billing/billing.service.ts:309-343 | the bill of a student adds up to the rates of the student's billed enrollments |
| `BillingService.BillingService.NextInvoiceNo` | src/billing/billing.service.ts:105-116 | a number of the year, not in the table |
| `BillingService.BillingService.IssueAll` | src/billing/billing.service.ts:331-375 | the issuing loop with its counters equals the recursive close |
| `BillingService.BillingService.GenerateMonthly` | src/billing/billing.service.ts:287-388 | table and report are those of the close over the billable students; rows are only added, each over what its student owes; if not aborted the close is complete and everyone who owes is billed; aborted exactly when some total, item or number does not fit |
| `InvoiceTotals.Subtotal` | src/billing/billing.service.ts:198-201 | the guarded fold succeeds exactly when the mathematical sum is at most 2^31 - 1, and is then that sum |
| `InvoiceTotals.ComputeTotals` | src/billing/billing.service.ts:198-211 | refused for the sum, then for the code, then for the discount, each exactly when it applies; an invoice issued takes off the manual discount and the code's percentage rounded down or fixed amount, and nothing else, and its amounts balance within 0 and 2^31 - 1 |
| `InvoiceTotals.DiscountIsDetermined` | src/billing/billing.service.ts:689-703 | subtotal, manual discount and code determine the discount |
| `InvoiceTotals.PercentWithinSubtotal` | src/billing/billing.service.ts:689-703 | a percent code grants the rounded-down share and never more than the subtotal |
| `InvoiceTotals.LineSumGrows` | src/billing/money.ts:3-13 | partial sums never exceed the whole, so an early failure is a failure of the sum |
| `OrderRef.OrderCodeIsBijective` | src/billing/payos.gateway.ts:26-36 | references and the numbers 1..2^40 correspond one to one |
| `OrderRef.OrderRefToOrderCode` | src/billing/payos.gateway.ts:26-36 | the loop computes the code, and fails exactly on a character outside the alphabet after the first two |
| `OrderRef.GenerateOrderRef` | src/billing/payments.service.ts:21-28 | eight bytes give the reference whose letters they select |
| `OrderRef.ExtractFindsIff` | src/billing/payos.gateway.ts:159-181 | a text in front lets every reference be found, whatever follows it, if and only if no match can begin in it |
| `OrderRef.LeftmostIffNoStart` | src/billing/payos.gateway.ts:16-18 | for every reference, its own position is the leftmost match if and only if no match can begin in the text in front |
| `OrderRef.DescriptionRoundTrips` | src/billing/payments.service.ts:64-69 | the description built for a QR payment gives its reference back |
| `OrderRef.LeadingVShifts` | src/billing/payos.gateway.ts:16-18 | a V directly before a reference shifts the match by one, which finds the reference only if it is ten V's |
| `IpTracker.SameTrackerIffSame64` | src/common/ip-tracker.ts:6-28 | two valid IPv6 texts share a tracker if and only if their first 64 bits agree, for any `::` placement, leading zeros, letter case and zone |
| `IpTracker.V4TrackersAreApart` | src/common/ip-tracker.ts:6-28 | a dotted quad and its mapped form track as the quad, which no IPv6 text does |
| `IpTracker.TrackerOfText` | src/common/ip-tracker.ts:6-28 | the tracker of a text is built from its first four full groups |
| `IpTracker.CanonicalDecides` | src/common/ip-tracker.ts:22-28 | two groups have one canonical form exactly when they have one value |
| `IpTracker.SplitsBack` | src/common/ip-tracker.ts:12-18 | splitting the text finds the groups on either side of `::` |
| `IpTracker.TrackerForIp` | src/common/ip-tracker.ts:6-28 | the code with its filling loop keeps a text without a colon, reduces a mapped IPv4 text to its quad, and gives for every spelling of a valid IPv6 text the canonical spelling of its first four groups |
| `IpTracker.TopUp` | src/common/ip-tracker.ts:21-23 | the loop adds exactly the zero groups missing to eight |

## Left out

- HTTP controllers, DTO decorators, serialisers, pagination, logging, metrics and the audit events that each operation emits.
- Calendar arithmetic of the monthly close: the end of the month is an input, and due dates are not modelled.
- Cryptography and randomness: signatures, hashing, sealed secrets and token generation; tokens and identifiers are taken as distinct.
- The payOS calls and the mail, SMS and ZNS senders appear as outcomes only: success, failure, not configured.
- Retry loops after a unique violation inside `create` and the exam-fee invoice: they depend on how the database continues an aborted transaction.
- Concurrent issuers of invoices in the monthly close: it is modelled as the only writer of the invoice table.
- The text of notes cut to 500 characters, the gateway column of a payment and the revenue report.
- Login failure counting, account lockout, recovery codes and alerts about new addresses.
- Class and exam capacity, belt promotion, consent, leaves, proposals and announcements: short guards that would add easy members.
- BillingService.AddUp: sums are exact, where JavaScript adds doubles; the two agree on whole rates, the only ones the settings endpoint accepts (src/billing/dto/settings.dto.ts:56-61).
- The one-time code of a secret and time step: an arbitrary function, so the claims hold for every such function.
- OutboxWorker.NotificationOutbox.ProcessBatch: steps of other workers within one pass; the lemmas on `Outbox.Run` cover every interleaving.
- IpTracker.TrackerForIp: IPv6 texts with an embedded dotted quad other than the `::ffff:` form; letters outside ASCII are not lowered, and no address has any.
- The denylist in `Sessions` keeps entries that have lapsed; `SharedStore.LazyRefines` shows that this cannot be observed.
