# PayTwin: a verified model of its ledger, inbox, audit chain and execution controls

PayTwin watches merchants' payments. Provider deliveries reach it late, twice, out of order and
concurrently, and its books must still be right. This project models the parts that carry that
promise and proves them for every input, run or interleaving, in Dafny 4.11:

    dafny verify dfyconfig.toml

Tables are maps and sequences with the schema's unique constraints; each operation is taken as
one transaction. Code that updates rows in place is a class whose methods are proved against
functions of the old state, and the theorems are about runs of those functions. The modules whose
names end in `Rules`, with `ReliabilityRecords`, `CheckoutProvenance` and `AuditRows`, say what
those functions must answer, in the fields of their inputs alone.

| files | what they model |
|---|---|
| `Ledger`, `LedgerRefunds`, `LedgerSweep`, `LedgerCredits`, `LedgerOrders`, `LedgerConfluence`, `LedgerFindings`, `LedgerRules` | canonical events driving payments, refunds and orders; conservation, the repair sweep, order backing, confluence, where the code falls short, and what each event does in the provider's own terms |
| `Checkout`, `CheckoutSafety`, `CheckoutProvenance` | browser checkout proofs, the signed callback each comes from, and the one fulfilment of an order |
| `Inbox`, `InboxTheorems`, `InboxRules`, `InboxDeferred`, `EndToEnd` | durable inbox, worker and synchronous path over the ledger, late flags, and the ledger's confluence seen from the inbox |
| `CanonicalJson`, `AuditChain`, `AuditProtocol`, `AuditRows` | the hash chain, its verifier, and concurrent optimistic appends |
| `ReliabilityEngine`, `ReliabilityInvariants`, `ReliabilityTheorems`, `ReliabilityRecords`, `ReliabilityConvergence` | the fixture handler under all 128 policies, its books as sums over the events accepted, and the eight invariants |
| `Names`, `PaymentLinks`, `LinkRules`, `IdempotencyKey`, `Executor`, `ExecutorRules`, `DispatchRules`, `ExecutorRuns`, `ExecutorCalls`, `Exposure`, `ExposureRuns` | local payment links and policy-gated execution with retries, stopping rules and rollback |
| `RateLimiter`, `RateLimiterMinutes`, `RateLimiterExact`, `LimiterRules` | the bounded sliding-window limiter against the unbounded history, and what forgetting costs it |
| `RollingFeatures`, `TrainingRows`, `FeatureRules`, `NoLeakage` | the sorted training rows; prefix sums and binary search against brute-force counts; nothing seen of the future |
| `Decimal`, `Money` | the Indian-grouping printer |

## What holds only under a condition

Several promises fail as the code stands. Each is kept as the code has it, with the input or run
on which it fails and the exact condition under which it holds:

- "Apply one provider refund exactly once" (`services/api/paytwin_api/services/state_machine.py:131`)
  fails when a processed refund later receives a failed, changed-amount or unknown status: the
  credit stays, and a further `processed` credits it again (`LedgerFindings.CreditedTwice`). A
  refund is credited at most once exactly if it was never demoted so, or once and is not processed
  now (`LedgerCredits.CreditedOnceExactly`); `LedgerRefunds.RefundConservation` gives what a payment
  has refunded beyond its processed refunds.
- A refund held before its capture is lost when a late `created`, `pending` or `updated` event
  overwrites the held status (`LedgerFindings.HeldRefundLost`, `LedgerFindings.HeldRefundFate`).
- Refund rows are looked up by reference, so a reference used for two payments can leave a captured
  payment with a held refund that the repair sweep then credits
  (`LedgerFindings.SharedReferenceWakesSweep`). The sweep stays idle exactly until an event leaves
  the row of a captured payment held (`LedgerSweep.SweepExact`).
- A capture naming another order than its payment's pays that order too, so one payment can pay
  several (`LedgerOrders.OnePaymentTwoOrders`); each paid order has a captured payment of its own
  exactly until an event does so (`LedgerOrders.OwnBackedExact`).
- A proof row stays under the order of the first callback for its payment, valid or not; a later
  verified callback does not move it, and fulfilment is then refused
  (`CheckoutSafety.WrongOrderFirst`, `CheckoutSafety.VerifiedThenFulfilled`).
- A delivery the worker has set aside as dead is answered as a duplicate ever after, while the
  synchronous path forgets a failed delivery and retries it. The two paths part exactly on a failure
  that is not repeated (`InboxDeferred.TransientFailureLost`, `InboxDeferred.DeferredExactly`).
- A payment link made by hand may name any execution: it reopens a halted campaign, or takes one
  past its cap (`ExposureRuns.HaltedThenNamed`, `ExposureRuns.NamedPastCap`); and one made under an
  executor reference is adopted by its batch (`ExposureRuns.TakenThenHalted`). Each execution's
  links are those of its own launch exactly until one of the two happens
  (`ExposureRuns.ExposureExact`); count, value and cap survive a link made by hand exactly if it
  could pass for the batch of an execution that has none (`ExposureRuns.HandMadeExactly`); and a
  closed execution stays closed exactly until a link names it (`ExposureRuns.ClosedExact`).
- The limiter forgets the least recently seen identity, so for every table size an identity can get
  more than its limit through in a minute (`RateLimiterExact.EveryLimitBreaks`); it does
  exactly if what was forgotten would have filled its window up (`RateLimiterExact.LimitExactly`).
- The audit chain detects truncation only through its head row (`AuditChain.TruncationNeedsHead`).
- INV-003, INV-004 and INV-006 hold exactly when the handler acts on no id also delivered unsigned,
  no capture is lowered below what was refunded, and every paid order gets an event that fulfils it
  (`ReliabilityTheorems.SignatureExact`, `ReliabilityTheorems.RefundExact`,
  `ReliabilityTheorems.CompleteDeliveryExact`).

## Model

| member | source | states |
|---|---|---|
| CanonicalJson.CanonicalInjective | services/api/paytwin_api/services/audit.py:25-27 | canonical JSON text determines the value: two payloads that print alike are equal |
| CanonicalJson.ValuePrefix | services/api/paytwin_api/services/audit.py:26 | the same inside a longer text: where one printed value ends and the rest begins is unambiguous |
| CanonicalJson.EscapePrefix | services/api/paytwin_api/services/audit.py:26 | an escaped string followed by its closing quote determines the string and what follows, short and \u escapes and surrogate pairs included |
| AuditChain.PayloadInjective | services/api/paytwin_api/services/audit.py:30-37 | the hashed dictionary determines every hashed field |
| AuditChain.PreimageInjective | services/api/paytwin_api/services/audit.py:25-37 | neither the previous hash nor the payload can be shifted into the other: the hashed text determines both |
| AuditChain.VerifyChain | services/api/paytwin_api/services/audit.py:94-118 | returns true exactly when every link and hash is right and the head, if it counts any record, agrees; otherwise names the first bad record, or the head when only the head disagrees |
| AuditChain.TamperEvidence | services/api/paytwin_api/services/audit.py:94-118 | against an untouched head the stored rows verify if and only if their hashed fields are exactly those appended: any edit, deletion, insertion or reordering is rejected |
| AuditChain.TailDeterminesChain | services/api/paytwin_api/services/audit.py:99-110 | two chains of one length with one tail hash agree in all hashed fields |
| AuditChain.HashDeterminesRecord | services/api/paytwin_api/services/audit.py:66-70 | rows with equal hashes have equal hashed fields and the same predecessor hash |
| AuditChain.TruncationNeedsHead | services/api/paytwin_api/services/audit.py:111-117 | a truncated chain verifies exactly when there is no head, the head counts zero, or nothing was cut |
| AuditChain.HashesDistinct | services/api/paytwin_api/services/audit.py:53-70 | link positions along a chain never repeat, the empty first link included |
| AuditProtocol.AuditTables.ReadHead | services/api/paytwin_api/services/audit.py:49-63 | reads the head, or on a legacy chain adopts the tail and the count |
| AuditProtocol.AuditTables.Insert | services/api/paytwin_api/services/audit.py:64-85 | inserts record and head together, or neither when a unique constraint is hit |
| AuditProtocol.AuditTables.AppendAudit | services/api/paytwin_api/services/audit.py:40-91 | the four-attempt retry loop, with other writers committing between each read and insert, computes `Append` |
| AuditProtocol.WriteSucceedsExactly | services/api/paytwin_api/models/measure.py:119-123 | an insert meets the unique constraints if and only if nothing was appended to that chain since the read |
| AuditProtocol.WriteKeepsDb | services/api/paytwin_api/services/audit.py:71-85 | a write from a possibly stale snapshot extends only its own organization's chain, and leaves every head the true tail hash and count |
| AuditProtocol.WriteKeepsSnapshot | services/api/paytwin_api/services/audit.py:49-63 | no write invalidates what another writer still holds |
| AuditProtocol.AuditSafety | services/api/paytwin_api/services/audit.py:40-91 | under every interleaving of any number of writers, legacy chains included, each organization keeps one linear chain that verifies against its head |
| AuditProtocol.CommittedChainIsEvident | services/api/paytwin_api/services/audit.py:94-118 | after any such run, rows verify against the head it left if and only if their hashed fields are those it committed |
| AuditProtocol.FailsOnlyOnContention | services/api/paytwin_api/services/audit.py:86-88 | a write fails if and only if its organization got another record between its read and its write |
| AuditProtocol.AppendOutcome | services/api/paytwin_api/services/audit.py:48-91 | an append lands if and only if one of its attempts runs free of appends to the same organization, and then as the newest record of a chain that still verifies |
| AuditRows.WriteStores | services/api/paytwin_api/services/audit.py:64-85 | in a state as every run keeps it, a write stores the entry, incident and time asked for, linked to the last row of its organization, and moves its head to that row and one more record, if and only if the organization got no row since the read |
| AuditRows.RowsNumbered | services/api/paytwin_api/services/audit.py:64-70 | sequence numbers rise through every run, and count the rows of a table that began empty |
| ReliabilityEngine.Scenario.Fulfil | services/api/paytwin_api/reliability/engine.py:17-26 | counts the fulfilment and records its effect, unless the policy allows one per order and there is one |
| ReliabilityEngine.Scenario.Handle | services/api/paytwin_api/reliability/engine.py:29-98 | one delivery takes the world to `Apply`, for all 128 policies and every branch |
| ReliabilityEngine.Scenario.Deliver | services/api/paytwin_api/reliability/engine.py:101-104 | the event loop takes the world to `Run` |
| ReliabilityInvariants.CheckCapturedFulfilments | services/api/paytwin_api/reliability/invariants.py:14-21 | decides that every fulfilment effect has a captured payment |
| ReliabilityInvariants.CheckDistinct | services/api/paytwin_api/reliability/invariants.py:25-29 | the counting dictionary of the two duplicate scans decides that no key occurs twice |
| ReliabilityInvariants.CheckOneEffectPerEvent | services/api/paytwin_api/reliability/invariants.py:24-29 | decides that no event id caused two effects |
| ReliabilityInvariants.CheckInvalidSignatures | services/api/paytwin_api/reliability/invariants.py:32-39 | decides that no unsigned delivery was accepted or shares its id with an effect |
| ReliabilityInvariants.CheckRefunds | services/api/paytwin_api/reliability/invariants.py:42-47 | decides that no payment refunded more than it captured |
| ReliabilityInvariants.CheckTenants | services/api/paytwin_api/reliability/invariants.py:50-52 | decides that every effect is the home tenant's |
| ReliabilityInvariants.CheckPaidOrders | services/api/paytwin_api/reliability/invariants.py:55-59 | decides that every order expected paid was fulfilled |
| ReliabilityInvariants.CheckMandate | services/api/paytwin_api/reliability/invariants.py:62-66 | decides that a single-use mandate caused at most one purchase |
| ReliabilityInvariants.CheckOneFulfilment | services/api/paytwin_api/reliability/invariants.py:69-77 | decides that no order was fulfilled twice |
| ReliabilityInvariants.Evaluate | services/api/paytwin_api/reliability/invariants.py:80-94 | reports exactly the invariants that do not hold |
| ReliabilityTheorems.FlagsSuffice | services/api/paytwin_api/reliability/fixtures.py:13-22 | on every trace each of five invariants is kept by its own flag alone |
| ReliabilityTheorems.FlagsDecide | services/api/paytwin_api/reliability/fixtures.py:13-22 | for each of the 128 policies, five invariants hold on all traces if and only if their own flag is on |
| ReliabilityTheorems.SignatureExact | services/api/paytwin_api/reliability/invariants.py:32-39 | with signatures checked, INV-003 holds if and only if the handler acts on no delivery whose id the trace also delivers unsigned |
| ReliabilityTheorems.SignatureFlagDecides | services/api/paytwin_api/reliability/engine.py:35-37 | on traces with consistent ids INV-003 always holds if and only if signatures are checked |
| ReliabilityTheorems.RefundExact | services/api/paytwin_api/reliability/engine.py:59-84 | with the refund guard on, INV-004 holds all along a run if and only if no capture is lowered below what was refunded |
| ReliabilityTheorems.RefundFlagDecides | services/api/paytwin_api/reliability/engine.py:78-84 | where captured amounts never shrink INV-004 always holds if and only if the refund guard is on |
| ReliabilityTheorems.OrderRecord | services/api/paytwin_api/reliability/engine.py:69-77 | the world records an order as expected paid, and as fulfilled, exactly when such an event was accepted |
| ReliabilityTheorems.CompleteDeliveryExact | services/api/paytwin_api/reliability/invariants.py:55-59 | for every policy INV-006 holds if and only if every paid order also got an event the policy fulfils on |
| ReliabilityTheorems.CorrectIsClean | services/api/paytwin_api/reliability/fixtures.py:25-26 | the correct policy violates none of the eight invariants on any consistent, non-shrinking, complete trace, in any order |
| ReliabilityRecords.NoteExactly | services/api/paytwin_api/reliability/engine.py:31-44 | every setup, every trace: which deliveries are refused and why, in the order of the checks, from the earlier deliveries and their log: unsigned, an id that came before, a foreign tenant, a refund above last capture less the sum of refund effects, a second purchase |
| ReliabilityRecords.EffectsExactly | services/api/paytwin_api/reliability/engine.py:47-98 | which effect an accepted event adds, if any, for every policy: kind, payment, order, tenant, amount and source |
| ReliabilityRecords.PaymentExactly | services/api/paytwin_api/reliability/engine.py:48-88 | every setup, every trace: a payment has refunded the sum of its refund effects, captured the amount of its last accepted capture, and has the greatest status accepted events report |
| ReliabilityRecords.RefundsWithinCaptures | services/api/paytwin_api/reliability/invariants.py:42-47 | INV-004 holds if and only if no payment's refund effects add up to more than its last accepted capture |
| ReliabilityRecords.OrderExactly | services/api/paytwin_api/reliability/engine.py:18-26 | an order counts its fulfilment effects, and is expected paid exactly if an order.paid of it was accepted |
| ReliabilityConvergence.PaymentConverges | services/api/paytwin_api/reliability/engine.py:51-68 | under the correct policy a payment ends with the greatest status its accepted events report |
| ReliabilityConvergence.OrderConverges | services/api/paytwin_api/reliability/engine.py:17-26 | under the correct policy an order is fulfilled once if a capture was accepted, and flagged paid if order.paid was |
| ReliabilityConvergence.OutOfOrderConvergence | services/api/paytwin_api/reliability/engine.py:29-98 | any two deliveries of the same events, reordered or repeated, end in the same statuses, fulfilment counts and paid flags |
| Ledger.LedgerTables.EnsurePayment | services/api/paytwin_api/services/state_machine.py:41-80 | creates the payment with its principal, or completes its order reference once |
| Ledger.LedgerTables.EnsureOrder | services/api/paytwin_api/services/state_machine.py:83-105 | creates the order, or fills in a missing amount |
| Ledger.LedgerTables.MarkOrderPaid | services/api/paytwin_api/services/state_machine.py:108-114 | marks the order of a captured payment paid, keeping the greatest amount and the first time |
| Ledger.LedgerTables.RecordRefund | services/api/paytwin_api/services/state_machine.py:130-182 | writes the refund row on every branch and says whether it is to be credited now |
| Ledger.LedgerTables.SettleRefund | services/api/paytwin_api/services/state_machine.py:186-196 | credits a refund within what is left of the principal, or rejects it |
| Ledger.LedgerTables.SettlePendingRefunds | services/api/paytwin_api/services/state_machine.py:199-205 | settles the payment's held refunds oldest first |
| Ledger.LedgerTables.ApplyEvent | services/api/paytwin_api/services/state_machine.py:249-280 | one event takes payments, refunds and orders to `Apply`, the refused transition included |
| Ledger.LedgerTables.ReconcilePendingRefunds | services/api/paytwin_api/services/state_machine.py:208-228 | the repair of one captured payment settles its held refunds and nothing else |
| LedgerRefunds.BlockedExactly | services/api/paytwin_api/services/state_machine.py:24-31 | a status event is refused exactly when it would take back a capture, return to created, or turn a failure into a timeout |
| LedgerRefunds.CaptureLands | services/api/paytwin_api/services/state_machine.py:231-246 | a capture event always leaves its payment captured, and no other event captures one |
| LedgerRefunds.SettleAllSound | services/api/paytwin_api/services/state_machine.py:186-205 | settling held refunds never over-refunds and marks the payment refunded exactly when full |
| LedgerRefunds.RunIsSound | services/api/paytwin_api/services/state_machine.py:249-280 | in every reachable state 0 <= refunded <= principal, refunded implies captured, and status refunded means fully refunded; captured is never left and no credit is undone |
| LedgerRefunds.AccountsStep | services/api/paytwin_api/services/state_machine.py:130-196 | one event moves refunded amount and processed sum together, up to what it demotes and what it credits across payments |
| LedgerRefunds.RefundConservation | services/api/paytwin_api/services/state_machine.py:130-205 | over every run the refunded amount is the processed sum, plus exactly what lost `processed` after it was credited, plus what was credited for other payments' refunds less what others got for its own |
| LedgerRefunds.OneOwnerConserves | services/api/paytwin_api/services/state_machine.py:137-142 | when references name one payment nothing crosses: refunded amount and processed sum differ by exactly what was demoted |
| LedgerSweep.HeldStep | services/api/paytwin_api/services/state_machine.py:143-183 | from a state in which refunds are held only before capture, one event keeps it so if and only if it is not a refund event that leaves the row of a captured payment held |
| LedgerSweep.IdleExactly | services/api/paytwin_api/services/state_machine.py:208-228 | the sweep over any payments changes and reports nothing if and only if refunds are held only before capture |
| LedgerSweep.SweepExact | services/api/paytwin_api/services/reconciliation.py:28-30 | all along any run the sweep has nothing to do if and only if no event wakes it |
| Ledger.LedgerTables.ReconcileFinancialState | services/api/paytwin_api/services/reconciliation.py:28-30 | the sweep repairs the selected payments in turn and adds up the held refunds found |
| LedgerSweep.SweepIsNoOp | services/api/paytwin_api/services/reconciliation.py:28-30 | so where each refund reference names one payment and no provider sends the internal status, the sweep has nothing to do in any reachable state |
| LedgerRefunds.TenantIsolation | services/api/paytwin_api/services/state_machine.py:42-51 | events of other tenant scopes change no payment, refund or order row of this one |
| LedgerOrders.OrderStep | services/api/paytwin_api/services/state_machine.py:83-114 | what one event leaves of one order: marked paid by its own capture for the greater amount and the first time, or at most given its amount |
| LedgerOrders.PaidOrdersBacked | services/api/paytwin_api/services/state_machine.py:108-114 | in every reachable state a paid order is backed by a captured payment of its scope for exactly the amount it records; paid, time and amount are never taken back |
| LedgerOrders.OwnStep | services/api/paytwin_api/services/state_machine.py:83-114 | one event leaves every paid order backed by a captured payment of that very order if and only if it does not mark an order paid with another order's payment, none of its own being captured for the amount |
| LedgerOrders.OwnBackedExact | services/api/paytwin_api/services/state_machine.py:108-114 | the same all along any run, if and only if no event of it does that |
| LedgerOrders.OwnOrdersBacked | services/api/paytwin_api/services/state_machine.py:54-57 | it holds where each capture names no order or the order of its payment |
| LedgerOrders.OnePaymentTwoOrders | services/api/paytwin_api/services/state_machine.py:87-114 | a concrete run: one capture pays its order, and order.paid of it naming another order pays that one too |
| LedgerConfluence.SettleHeld | services/api/paytwin_api/services/state_machine.py:199-205 | held refunds that fit are all credited, whatever their order |
| LedgerConfluence.StepAt | services/api/paytwin_api/services/state_machine.py:249-280 | one event of the case, new or repeated, moves the case state as the set of delivered refunds and the capture say |
| LedgerConfluence.Settled | services/api/paytwin_api/services/state_machine.py:130-205 | where every complete delivery of a case ends: refunded amount, status and refund rows |
| LedgerConfluence.Confluence | services/api/paytwin_api/services/state_machine.py:130-280 | any two orders of delivery, with any repetitions and other payments in between, end in the same status, refunded amount and refund rows |
| LedgerFindings.HeldRefundFate | services/api/paytwin_api/services/state_machine.py:155-182 | a held refund stays held under an event if and only if the event neither captures its payment nor overwrites its status |
| LedgerFindings.HeldRefundLost | services/api/paytwin_api/services/state_machine.py:172-176 | a concrete receivable run: a late pending update makes a held processed refund vanish, and the same update after the capture does not |
| LedgerCredits.DemotionStep | services/api/paytwin_api/services/state_machine.py:143-183 | a refund stops being processed exactly when a refund event for it has another amount, a failure or an unknown status |
| LedgerCredits.CreditIsPaid | services/api/paytwin_api/services/state_machine.py:183-196 | a refund event that credits a refund adds the amount of its row to what the payment has refunded |
| LedgerCredits.CreditsAndDemotions | services/api/paytwin_api/services/state_machine.py:130-205 | over every run a refund is credited as often as it is demoted, and once more if it is processed now |
| LedgerCredits.CreditedOnceExactly | services/api/paytwin_api/services/state_machine.py:130-131 | a refund is credited at most once if and only if it was never demoted, or once and is not processed now |
| LedgerFindings.CreditedTwice | services/api/paytwin_api/services/state_machine.py:167-183 | a concrete receivable run: processed, failed, processed credits one refund twice |
| LedgerFindings.SharedReferenceWakesSweep | services/api/paytwin_api/services/state_machine.py:137-142 | a concrete receivable run: one reference used for two payments leaves a captured payment with a held refund that the sweep then credits |
| LedgerRules.StatusAfter | services/api/paytwin_api/services/state_machine.py:231-290 | the status each kind of payment event leaves, from each status before |
| LedgerRules.CaptureStatus | services/api/paytwin_api/services/state_machine.py:194-205 | in a sound ledger, as every reachable one is, a capture ends in refunded exactly if the refunds held for it come to its whole amount |
| LedgerRules.OthersStay | services/api/paytwin_api/services/state_machine.py:42-51 | an event changes no payment but the one of its scope and reference |
| LedgerRules.PaymentOpened | services/api/paytwin_api/services/state_machine.py:53-70 | the principal, order and time a payment is opened with: a late refund's amount is the principal only where the event gives no payment amount |
| LedgerRules.PaymentUpdated | services/api/paytwin_api/services/state_machine.py:71-74 | a known payment keeps its principal and its order reference, takes one if it has none, and its time moves on unless the event is refused |
| LedgerRules.CreditsExactly | services/api/paytwin_api/services/state_machine.py:117-196 | a refund event credits its amount if and only if it is refund.created with status processed, or with none from a provider other than razorpay, its row has this amount and is not processed, and the captured payment covers it; it marks the payment refunded exactly when full |
| LedgerRules.RefusedStatuses | services/api/paytwin_api/services/state_machine.py:155-176 | a changed amount leaves the row rejected, refund.failed leaves it failed, refund.updated leaves it updated unless processed |
| LedgerRules.CreatedStatuses | services/api/paytwin_api/services/state_machine.py:165-188 | the row status refund.created leaves, for each status it may carry and each state of its payment |
| LedgerRules.RefundRow | services/api/paytwin_api/services/state_machine.py:137-154 | a new refund row is of the event's payment for the reported amount, a known one keeps both, and no other row changes |
| LedgerRules.OldestFirst | services/api/paytwin_api/services/state_machine.py:199-205 | a held refund is processed exactly if it fits into what older ones left of the principal, and rejected otherwise |
| LedgerRules.SettledAmount | services/api/paytwin_api/services/state_machine.py:186-205 | settling adds to the refunded amount exactly what it turns processed |
| LedgerRules.RepairExactly | services/api/paytwin_api/services/state_machine.py:208-228 | in a ledger that lists its refund rows, as every reachable one does, the repair of a captured payment reports and settles its waiting refunds in that way and touches nothing else; one not captured is left alone |
| LedgerRules.OrderOpened | services/api/paytwin_api/services/state_machine.py:83-105 | an event opens or changes only the order it is about, none if it is refused, and with which amount |
| LedgerRules.OrderPaidExactly | services/api/paytwin_api/services/state_machine.py:108-114 | an order is marked paid exactly by a capture that is not refused, for the greater amount and the first time |
| Checkout.CheckoutTables.Record | services/api/paytwin_api/services/checkout_verification.py:48-76 | inserts a proof row or upgrades a rejected one; never touches a verified one |
| Checkout.CheckoutTables.VerifyCheckout | services/api/paytwin_api/services/checkout_verification.py:79-125 | returns the verdict of every branch and files the evidence that branch files |
| Checkout.CheckoutTables.FindLatestProof | services/api/paytwin_api/services/state_machine.py:333-340 | finds the latest verified proof filed under an order |
| Checkout.CheckoutTables.RecordFulfilment | services/api/paytwin_api/services/state_machine.py:308-358 | returns the outcome of every branch and adds at most the row it returns |
| CheckoutSafety.LatestProves | services/api/paytwin_api/services/state_machine.py:333-340 | the proof found is verified, of this order, and none verified is later; one is found if there is one |
| CheckoutSafety.GoodStep | services/api/paytwin_api/services/state_machine.py:308-358 | every event, callback and fulfilment request keeps the invariant and takes nothing back |
| CheckoutSafety.FulfilmentSafety | services/api/paytwin_api/services/state_machine.py:308-358 | over every run an order has at most one fulfilment; its order stays paid, its payment captured and of that order; a Razorpay checkout one rests on a verified proof of that order naming that payment |
| CheckoutSafety.ReachableIsGood | services/api/paytwin_api/services/state_machine.py:308-358 | the same in every state reached from empty tables |
| CheckoutSafety.FulfilledForGood | services/api/paytwin_api/services/state_machine.py:348-350 | once an order is fulfilled every later granted request for it returns that same row |
| CheckoutSafety.AcceptedExactly | services/api/paytwin_api/services/state_machine.py:333-347 | a checkout request is not turned away for its proof if and only if the latest verified proof filed under the order names a payment of it |
| CheckoutSafety.VerifiedThenFulfilled | services/api/paytwin_api/services/checkout_verification.py:68-76 | after a callback verifies, its payment can be fulfilled if and only if the latest proof of the order already named a payment of it, or the callback files a newer proof under that order; a misfiled proof of the same instant leaves it open |
| CheckoutSafety.WrongOrderFirst | services/api/paytwin_api/services/checkout_verification.py:56-76 | a concrete run from empty tables: after one unsigned callback naming another order the genuine callback still verifies and fulfilment is refused |
| CheckoutSafety.MisfiledNeverFulfilled | services/api/paytwin_api/services/checkout_verification.py:68-76 | a payment whose proof is filed under another order is refused for ever, however often it verifies, until another payment proves the order |
| CheckoutProvenance.VerdictExactly | services/api/paytwin_api/services/checkout_verification.py:79-125 | each verdict, by what the callback and the tables say: verified exactly if configured, signed, of the named order, captured, paid and of its amount |
| CheckoutProvenance.ProvesExactly | services/api/paytwin_api/services/checkout_verification.py:48-125 | a callback makes a proof valid if and only if it is such a genuine one, and only the proof of its own payment |
| CheckoutProvenance.UnsignedProvesNothing | services/api/paytwin_api/services/checkout_verification.py:95-100 | an unsigned callback, or one without a configured secret, leaves no row newly valid |
| CheckoutProvenance.FirstEvidence | services/api/paytwin_api/services/checkout_verification.py:48-125 | what a first callback leaves: nothing, or a row under its order, linked to the payment only once the signature was accepted, with the reason |
| CheckoutProvenance.LaterEvidence | services/api/paytwin_api/services/checkout_verification.py:68-76 | a valid row stands as it is; any other changes only by a genuine callback, and keeps its order |
| CheckoutProvenance.ProofProvenance | services/api/paytwin_api/services/checkout_verification.py:79-125 | after any run from empty tables a proof is valid if and only if some step of the run was a signed, configured callback for its payment, which then was captured, of the named paid order and of its amount |
| CheckoutProvenance.FulfilmentIsSigned | services/api/paytwin_api/services/state_machine.py:329-347 | so every Razorpay checkout fulfilment of a run rests on such a callback |
| CheckoutProvenance.GrantedExactly | services/api/paytwin_api/services/state_machine.py:316-358 | a fulfilment request is granted if and only if its payment is captured, of a paid order, not wanting a proof, and the order is fulfilled already or the key is free |
| CheckoutProvenance.RefusedExactly | services/api/paytwin_api/services/state_machine.py:316-358 | why a request is refused, in the order of the checks; a refusal adds no row |
| CheckoutProvenance.AnsweredAgain | services/api/paytwin_api/services/state_machine.py:348-350 | a granted request for an order already fulfilled returns its row, whatever its source and key, and changes nothing |
| CheckoutProvenance.RowGranted | services/api/paytwin_api/services/state_machine.py:351-358 | a granted request adds one row of the payment's order under its own source and key |
| Inbox.InboxTables.AcceptWebhook | services/api/paytwin_api/services/ingest.py:155-207 | adds a received row for a new delivery; a redelivery at most turns a processed row into a duplicate |
| Inbox.InboxTables.CheckLate | services/api/paytwin_api/services/ingest.py:230-237 | late means more than 60 seconds before the merchant's latest logged occurrence |
| Inbox.InboxTables.MaterializeInbox | services/api/paytwin_api/services/ingest.py:210-271 | returns the outcome of every branch and changes row, log, ledger and outbox as it says, or not at all when applying raises |
| Inbox.InboxTables.ProcessPending | services/api/paytwin_api/services/ingest.py:274-297 | one worker pass: the oldest received rows up to the clamped limit, failures set aside as dead, successes and failures counted |
| Inbox.InboxTables.IngestWebhook | services/api/paytwin_api/services/ingest.py:300-310 | accept and materialise in one transaction that keeps nothing if applying raises |
| Inbox.Pending | services/api/paytwin_api/services/ingest.py:276-279 | the worker's selection holds exactly the received rows |
| InboxTheorems.OpenOutcome | services/api/paytwin_api/services/ingest.py:220-261 | a row that is not settled never collides with the canonical log |
| InboxTheorems.WorkReflects | services/api/paytwin_api/services/ingest.py:238-271 | materialising extends log, late flag, ledger and outbox by the same event, or changes none of them |
| InboxTheorems.ExactlyOnce | services/api/paytwin_api/services/ingest.py:155-261 | over any run of deliveries, redeliveries, worker passes, single materialisations and rolled-back failures each delivery is applied at most once, exactly once if its row is processed or duplicate; rows are never lost |
| InboxTheorems.ReachableIsGood | services/api/paytwin_api/services/ingest.py:155-261 | the same in every state reached from an empty inbox |
| InboxTheorems.LedgerReflectsLog | services/api/paytwin_api/services/ingest.py:241-271 | log, ledger and outbox are always what applying the logged events in order produces |
| InboxTheorems.AcceptKeepsQueue | services/api/paytwin_api/services/ingest.py:164-175 | a redelivery takes nothing off the queue and a new delivery goes to its end |
| InboxTheorems.DeadForGood | services/api/paytwin_api/services/ingest.py:290-296 | a delivery set aside by the worker is never applied by later deliveries or passes |
| InboxTheorems.FailedIngestIsForgotten | services/api/paytwin_api/services/ingest.py:300-310 | a synchronous delivery that fails leaves no trace, so its redelivery is applied |
| InboxRules.LateOverRuns | services/api/paytwin_api/services/ingest.py:230-271 | over every run from an empty inbox an event is logged late if and only if an event of its merchant logged earlier occurred more than 60,000,000 microseconds after it; its notice has the same flag and the status it left its payment in |
| InboxRules.AcceptExactly | services/api/paytwin_api/services/ingest.py:155-207 | a redelivery turns the processed row of its key into a duplicate and nothing else; a new delivery waits at the end |
| InboxRules.WorkExactly | services/api/paytwin_api/services/ingest.py:210-271 | what materialising leaves of a row, for settled, unreadable, already logged, raising and other deliveries, alone or in the worker |
| InboxRules.PassTakes | services/api/paytwin_api/services/ingest.py:276-279 | a pass takes the waiting rows, oldest first, up to its limit taken between 1 and 1000 |
| InboxRules.PassCounts | services/api/paytwin_api/services/ingest.py:280-297 | a pass reports exactly the rows it leaves processed, and leaves the others it took dead |
| InboxDeferred.PassQueue | services/api/paytwin_api/services/ingest.py:274-297 | a pass works off the oldest waiting rows in order, as many as the clamped limit allows, setting aside those whose event raises |
| InboxDeferred.WorkerBehind | services/api/paytwin_api/services/ingest.py:274-297 | at any point what the worker applied is a prefix of what it is to apply |
| InboxDeferred.DrainedAppliedTaken | services/api/paytwin_api/services/ingest.py:155-297 | drained, the worker has applied the first delivery of each key, where it does not raise, in order of arrival |
| InboxDeferred.DeferredExactly | services/api/paytwin_api/services/ingest.py:107-310 | for every interleaving of deliveries, redeliveries, bounded worker passes and failures, the drained log with its late flags, ledger and outbox are those of the synchronous path if and only if no delivery that raises at first passes when its key is delivered again |
| InboxDeferred.TransientFailureLost | services/api/paytwin_api/services/ingest.py:290-310 | a concrete run: a delivery that raises once and comes again is applied synchronously and lost deferred |
| EndToEnd.TakenAre | services/api/paytwin_api/services/ingest.py:164-175 | what the worker is to apply is exactly the deliveries that are the first of their key and do not raise |
| EndToEnd.EndToEndConfluence | services/api/paytwin_api/services/ingest.py:155-297 | however the worker is left one case, with failures, redeliveries and other deliveries in between, once drained payment and refunds end the same |
| Names.StrippedIs | services/api/paytwin_api/services/razorpay_local.py:111 | stripping takes only blanks, and leaves none at either end |
| PaymentLinks.LinkDesk.CreateOrder | services/api/paytwin_api/services/razorpay_local.py:104-131 | refuses a bad amount, currency or receipt, returns the order of a known receipt, or opens one; a missing receipt is generated |
| PaymentLinks.LinkDesk.CreatePaymentLink | services/api/paytwin_api/services/razorpay_local.py:134-173 | refuses in the code's order, returns the link of a known reference unchanged, or issues one on its own order; a missing reference is generated |
| PaymentLinks.LinkDesk.SimulateOutcome | services/api/paytwin_api/services/razorpay_local.py:289-343 | refuses a closed, expired or already paid link and a bad partial amount, or moves the link to its outcome |
| PaymentLinks.LinkDesk.CancelOpenLinks | services/api/paytwin_api/services/razorpay_local.py:346-358 | cancels exactly the open links of one execution and counts them |
| PaymentLinks.CreateSound | services/api/paytwin_api/services/razorpay_local.py:134-173 | issuing keeps references unique and every link on an order of its amount |
| PaymentLinks.SimulateSound | services/api/paytwin_api/services/razorpay_local.py:289-343 | a link's payments only grow and stay within its amount, paid means paid in full, a closed link never changes, no order is paid through two links |
| PaymentLinks.CancelSound | services/api/paytwin_api/services/razorpay_local.py:346-358 | cancelling keeps the same, and touches no closed link |
| LinkRules.OutcomeExactly | services/api/paytwin_api/services/razorpay_local.py:289-343 | when an outcome is refused and why, expiry and an order already paid included, and otherwise the status and payment it leaves on its link and its order |
| LinkRules.OrderExactly | services/api/paytwin_api/services/razorpay_local.py:104-131 | when an order is refused and why, and what opening it leaves of the others |
| LinkRules.IssueExactly | services/api/paytwin_api/services/razorpay_local.py:134-173 | when a link is refused and why, and the link and order a new reference issues, expiry included |
| LinkRules.CancelExactly | services/api/paytwin_api/services/razorpay_local.py:346-358 | cancelling closes exactly the issued and partly paid links of the execution, and counts them |
| Executor.ExecutorTables.DistinctGroups | services/api/paytwin_api/services/executor.py:229 | the treatment groups without repetition, in first-seen order |
| Executor.ExecutorTables.IssueBatch | services/api/paytwin_api/services/executor.py:242-253 | one link a group under numbered references; the first local error undoes the batch |
| Executor.ExecutorTables.DispatchLocalPaymentLinks | services/api/paytwin_api/services/executor.py:210-271 | refuses other actions, schedules a retry on a transient fault, refuses below the minimum or above the cap, or issues the batch |
| Executor.ExecutorTables.DispatchAction | services/api/paytwin_api/services/executor.py:274-356 | local links, disabled real provider, or the provider's answer: the row each branch leaves |
| Executor.ExecutorTables.RequestExecution | services/api/paytwin_api/services/executor.py:75-160 | a known key changes nothing; a new one is rejected, left waiting, dispatched, or rolled back |
| Executor.ExecutorTables.ApproveAndExecute | services/api/paytwin_api/services/executor.py:166-173 | dispatches an execution that awaits approval and refuses any other |
| Executor.ExecutorTables.RetryExecution | services/api/paytwin_api/services/executor.py:374-391 | retries when due while the budget lasts, and fails finally when it is spent |
| Executor.ExecutorTables.MonitorExecution | services/api/paytwin_api/services/executor.py:359-417 | stopping rules in the code's order: duration, retry, partial success, completed batch |
| Executor.ExecutorTables.SettleLinks | services/api/paytwin_api/services/executor.py:399-407 | whether the execution has links, whether any is open, and count and value of the paid ones |
| Executor.ExecutorTables.HaltExecution | services/api/paytwin_api/services/executor.py:420-441 | leaves a terminal execution alone; otherwise cancels its open links and stops it |
| IdempotencyKey.DescriptionInjective | services/api/paytwin_api/services/executor.py:69-72 | the canonical description determines merchant, kind, parameters and incident |
| IdempotencyKey.KeyIdentifiesAction | services/api/paytwin_api/services/executor.py:69-72 | two requests share a key if and only if they ask for the same action, where the shortened hash does not collide |
| ExecutorRuns.RowDispatch | services/api/paytwin_api/services/executor.py:274-356 | whatever the provider answers, a dispatch uses up one unit of the budget |
| ExecutorRuns.ControlledRun | services/api/paytwin_api/services/executor.py:75-441 | over every run keys stay unique, a rejected execution was never dispatched and none without an approver, terminal rows never change, and the dispatches left never grow |
| ExecutorRuns.DispatchBound | services/api/paytwin_api/services/executor.py:377-391 | no execution has more than max(1, max_provider_retries) dispatches on record, those that crash being rolled back |
| ExecutorCalls.CallsBalanced | services/api/paytwin_api/services/executor.py:75-391 | over every run the dispatches made of one action are those that crashed and those on record |
| ExecutorCalls.AllCallsBounded | services/api/paytwin_api/services/executor.py:377-391 | so all its dispatches, crashed ones included, are at most the crashes plus max(1, max_provider_retries) |
| ExecutorRuns.RepeatedRequest | services/api/paytwin_api/services/executor.py:78-82 | a request with a known key does nothing, whatever happened since the first |
| ExecutorRuns.PendingWaits | services/api/paytwin_api/services/executor.py:146-173 | an execution waiting for approval is dispatched by nothing but its approval |
| ExecutorRules.OverdueIsHalted | services/api/paytwin_api/services/executor.py:368-373 | an active campaign past its maximum duration is halted by the next monitoring, for that reason, with its open links cancelled and nothing else touched |
| ExecutorRules.NoneOutstanding | services/api/paytwin_api/services/executor.py:420-441 | after a stop no link of a razorpay execution is open |
| ExecutorRules.MonitoredExactly | services/api/paytwin_api/services/executor.py:392-417 | within its duration a campaign not waiting to retry is rolled back exactly after a partial success that is to be rolled back, else completed exactly if it has razorpay links and all are closed, with number and sum of the paid ones, else left as it is |
| ExecutorRules.OnlyActiveAreMonitored | services/api/paytwin_api/services/executor.py:366-367 | monitoring leaves every other execution alone |
| ExecutorRules.HaltExactly | services/api/paytwin_api/services/executor.py:420-441 | a halt stops exactly an execution that is not terminal, in the state asked for, with its open links |
| DispatchRules.RetryExactly | services/api/paytwin_api/services/executor.py:374-391 | a retry is left until due, fails finally once its budget is spent, and is dispatched otherwise |
| DispatchRules.DispatchExactly | services/api/paytwin_api/services/executor.py:210-356 | which reply, parameter or configuration fails a dispatch for good, lets it wait and until when, launches a batch, completes, or raises, and the row it leaves |
| DispatchRules.IssueSucceedsExactly | services/api/paytwin_api/services/executor.py:241-251 | a batch is issued if and only if its channel and duration are offered and no reference or receipt is in use for another amount |
| DispatchRules.BatchIssues | services/api/paytwin_api/services/executor.py:241-251 | the links of a fresh batch, one a group: open, for its amount and its duration |
| DispatchRules.SizeExactly | services/api/paytwin_api/services/executor.py:229-232 | the size of a campaign: the number of distinct groups, or the count taken between 1 and 100 |
| DispatchRules.RequestExactly | services/api/paytwin_api/services/executor.py:75-160 | a request of a known key changes nothing; a new one is rejected, left waiting or dispatched exactly as decided, and by whose leave |
| DispatchRules.ApprovalExactly | services/api/paytwin_api/services/executor.py:166-173 | an approval dispatches exactly what waits for it |
| Exposure.ReferenceInjective | services/api/paytwin_api/services/executor.py:64-66 | a link reference determines the execution and the position it was made for |
| Exposure.GroupsDistinct | services/api/paytwin_api/services/executor.py:229-232 | the groups served are distinct and are those asked for, whenever any are |
| Exposure.IssueAllExactly | services/api/paytwin_api/services/executor.py:242-253 | a batch that succeeds appends one link a group, in order, if and only if none of its references was taken |
| ExposureRuns.DeskExactly | services/api/paytwin_api/services/razorpay_local.py:134-173 | a step of the link desk gives an execution a link that is not of its own launch if and only if it issues a new link naming it |
| ExposureRuns.HandMadeExactly | services/api/paytwin_api/services/razorpay_local.py:134-173 | a link made by hand leaves every execution within its count, value and cap if and only if the execution it names is not over, has no link yet and one group, and the link has that group and the row's amount within the cap |
| ExposureRuns.ExposureStep | services/api/paytwin_api/services/executor.py:210-441 | where each execution's links are those of its own launch, a step keeps them so if and only if it issues no new hand-made link that names an execution and no batch under a taken reference |
| ExposureRuns.ExposureExact | services/api/paytwin_api/services/executor.py:210-441 | the same all along any run |
| ExposureRuns.ExposureBound | services/api/paytwin_api/services/executor.py:229-261 | in every state such a run reaches, an execution's links are one a distinct group, worth amount times groups and within the cap; recovered value is amount times paid links; a terminal execution has none open |
| ExposureRuns.ClosedStep | services/api/paytwin_api/services/executor.py:420-441 | a step opens a link of a closed execution if and only if it issues a new one naming it |
| ExposureRuns.ClosedExact | services/api/paytwin_api/services/executor.py:420-441 | a closed execution stays closed all along a run if and only if no step of it does that |
| ExposureRuns.HaltedThenNamed | services/api/paytwin_api/services/razorpay_local.py:134-173 | a concrete run: a campaign is halted, and a link made by hand for it is open again |
| ExposureRuns.NamedPastCap | services/api/paytwin_api/services/razorpay_local.py:134-173 | a concrete run: such a link takes a monitored campaign past one link a group and past its cap |
| ExposureRuns.TakenThenHalted | services/api/paytwin_api/services/razorpay_local.py:148-157 | a concrete run: a reference taken by hand is adopted by the campaign, which then halts while that link stays open |
| RateLimiter.Limiter.Handle | services/api/paytwin_api/main.py:120-154 | one request: exempt ones pass untouched, others seat the identity, prune its window and are admitted while it is below the limit |
| RateLimiter.Limiter.Seat | services/api/paytwin_api/main.py:134-141 | moves a known identity to the end, or seats a new one, forgetting the oldest when full |
| RateLimiter.LastMoves | services/api/paytwin_api/main.py:134-141 | the table's order moves exactly as the tail of the full recency order does |
| RateLimiter.ServeMirrors | services/api/paytwin_api/main.py:114-153 | after any requests the table is the N most recently seen identities in recency order, each with the window of its counted requests |
| RateLimiter.DecisionFromHistory | services/api/paytwin_api/main.py:142-153 | every decision is count-in-the-last-minute below the limit over the unbounded history since the identity was last forgotten |
| RateLimiter.DecisionExact | services/api/paytwin_api/main.py:142-153 | for an identity never forgotten it is the decision over the whole history |
| RateLimiterMinutes.MinuteBound | services/api/paytwin_api/main.py:142-153 | while an identity is remembered no minute ever holds more admissions than the limit |
| RateLimiterMinutes.MinuteBoundExact | services/api/paytwin_api/main.py:142-153 | for an identity never forgotten the whole history keeps that bound |
| RateLimiter.ForgottenStartsAfresh | services/api/paytwin_api/main.py:135-139 | a forgotten identity's next request is admitted, whatever it did before |
| RateLimiterExact.LostAndCounted | services/api/paytwin_api/main.py:134-153 | the admissions of an identity are those that were forgotten followed by those that count |
| RateLimiterExact.DecisionExactly | services/api/paytwin_api/main.py:134-153 | a decision is the one on the whole history if and only if what counts is at the limit or what was forgotten does not fill it up |
| RateLimiterExact.LimitExactly | services/api/paytwin_api/main.py:134-153 | over a run no minute of an identity exceeds the limit if and only if none of its decisions differs so |
| RateLimiterExact.ForgettingBreaksLimit | services/api/paytwin_api/main.py:134-153 | fill one identity's minute, see as many others as the table holds, whoever they are, and come back: one admission more than the limit in a minute |
| RateLimiterExact.EveryLimitBreaks | services/api/paytwin_api/main.py:118-137 | so for every limit and every table size, 10,000 included, there is such a run |
| LimiterRules.RememberedExactly | services/api/paytwin_api/main.py:134-141 | an identity is remembered if and only if fewer others than the table seats came since it last did |
| LimiterRules.RequestExactly | services/api/paytwin_api/main.py:120-153 | one more request after any others: unseen unless it is a web request under /api/ other than the health check, and otherwise admitted if and only if fewer than the limit of its identity's admissions in the last sixty seconds were not forgotten since |
| RollingFeatures.SearchSorted | services/ml/paytwin_ml/train.py:93-94 | the leftmost position not before a value, by binary search |
| RollingFeatures.GroupRows | services/ml/paytwin_ml/train.py:81-83 | the cohorts of a level, each its rows in order |
| RollingFeatures.BuildPrefixes | services/ml/paytwin_ml/train.py:86-89 | prefix sums of attempts and failures of a cohort |
| RollingFeatures.CountWindow | services/ml/paytwin_ml/train.py:91-96 | prefix differences between the split position and the row are the brute-force counts |
| RollingFeatures.FillRow | services/ml/paytwin_ml/train.py:90-100 | fills the cells of one row at one level and no other |
| RollingFeatures.BuildRolling | services/ml/paytwin_ml/train.py:73-100 | every cell of every row, level and window is the count, or the rate from three attempts on, of strictly earlier rows of its cohort within the window |
| RollingFeatures.PrefixSums | services/ml/paytwin_ml/train.py:95-96 | over an ordered cohort counts are differences of prefix sums at the split position |
| RollingFeatures.SeenByPrefixSums | services/ml/paytwin_ml/train.py:86-96 | what a row sees, counted over all rows, is what its cohort's prefix sums say |
| RollingFeatures.ColumnsDistinct | services/ml/paytwin_ml/train.py:64-68 | no two level, block and window share a column |
| TrainingRows.BuildDataset | services/ml/paytwin_ml/train.py:58-100 | the rows are the terminal payments sorted by epoch and reference, and every rolling cell is right for them |
| TrainingRows.SortOrders | services/ml/paytwin_ml/train.py:59 | the sort orders by epoch, then reference, and keeps every payment |
| TrainingRows.SortStable | services/ml/paytwin_ml/train.py:59 | payments with the same epoch and reference keep their order |
| FeatureRules.RowsExactly | services/ml/paytwin_ml/train.py:58-59 | the rows are the terminal payments, each as often as given, by epoch and then in lexicographic order of reference |
| FeatureRules.DatasetExactly | services/ml/paytwin_ml/train.py:73-100 | every rolling cell, by its column number, is the number of earlier rows of its cohort in the window, of failed ones, or their rate, -1 below three attempts |
| RollingFeatures.LaterRowsUnseen | services/ml/paytwin_ml/train.py:91 | rows appended to the sorted ones, whatever they are, change nothing an earlier row sees |
| NoLeakage.SortSplits | services/ml/paytwin_ml/train.py:59 | sorting keeps the payments before any point in epoch and reference as a prefix, sorted among themselves |
| NoLeakage.EarlierDecide | services/ml/paytwin_ml/train.py:58-100 | two inputs with the same payments before a point give those the same rows and rolling cells |
| NoLeakage.LaterPaymentsUnseen | services/ml/paytwin_ml/train.py:58-100 | payments not before a point, put anywhere into the unsorted input, change no row or rolling cell of those before it |
| Money.FormatInr | packages/contracts/paytwin_contracts/money.py:16-29 | the grouping loop prints `Format` of the paise rounded to rupees |
| Money.RupeesExactly | packages/contracts/paytwin_contracts/money.py:18 | the rounded amount is the nearest number of rupees, the even one of two |
| Money.PrintedExactly | packages/contracts/paytwin_contracts/money.py:16-29 | a text is the print of an amount if and only if it reads as that amount and is canonical: sign, symbol, Indian commas, no leading zero, no minus zero |
| Money.RoundTrip | packages/contracts/paytwin_contracts/money.py:16-29 | reading back what was printed gives the same amount, whatever its sign and size |
| Money.PlainOfGroup | packages/contracts/paytwin_contracts/money.py:20-28 | dropping the commas gives back the digits |
| Money.GroupShape | packages/contracts/paytwin_contracts/money.py:20-28 | counting from the right commas stand at 3, 6, 9 and so on and nowhere else, and none comes first |
| Money.GroupIsTheOnly | packages/contracts/paytwin_contracts/money.py:20-28 | any text with these digits and Indian commas is the one printed |
| Decimal.ValueOfDigits | packages/contracts/paytwin_contracts/money.py:19 | the decimal numeral of a number reads back as it |
| Decimal.DigitsOfValue | packages/contracts/paytwin_contracts/money.py:19 | a numeral without a leading zero is the one its number prints as |

## Left out

- AuditChain.TamperEvidence: SHA-256 is any function to hexadecimal digests; the theorem assumes that no two of the texts hashed in the two chains collide, not that it is injective.
- AuditProtocol.AuditSafety: assumes the same of the texts hashed in the run; database savepoints are atomic steps and sequence numbers have no gaps.
- CanonicalJson.CanonicalInjective: numbers are their printed literals; NaN, infinities, keys that are not text and values printed through `default=str` are not modelled.
- LedgerConfluence.Confluence: leaves out `occurred_at`, `final_status_at` and order rows, and covers refund events with status processed that fit within the principal.
- EndToEnd.EndToEndConfluence: whether applying a delivery raises is given with the delivery, and is the same on arrival and in the worker.
- IdempotencyKey.KeyIdentifiesAction: assumes that the first forty digits of the hash tell the two descriptions apart.
- LedgerRefunds.OneOwnerConserves: assumes that each refund reference names one payment; `LedgerRefunds.RefundConservation` does not.
- LedgerSweep.SweepIsNoOp: assumes that each refund reference names one payment and that no provider sends the internal status pending_reconciliation; `LedgerSweep.SweepExact` assumes neither.
- Ledger.LedgerTables.SettlePendingRefunds: rows created at the same instant are settled in insertion order.
- Ledger.LedgerTables.EnsurePayment: payment group, attempt number, customer, currency, failure class and link attribution are not modelled.
- Ledger.LedgerTables.RecordRefund: receipts, idempotency keys, speeds, failure reasons and currencies of refunds are not modelled.
- Ledger.LedgerTables.SettleRefund: times of processing and of the final status, and the failure reason of a rejected refund, are not modelled.
- Ledger.LedgerTables.ApplyEvent: cohort dimensions, latency, times of the final status and the recovered label of payment groups are not modelled; amounts are natural numbers, as canonical amounts are, so a negative amount inside a payload is not modelled.
- Checkout.CheckoutTables.VerifyCheckout: the keyed digest and the configured secret are boolean inputs, and a merchant belongs to one organization.
- Checkout.CheckoutTables.FindLatestProof: among proofs verified at the same instant the oldest row is taken, where the database leaves the choice open.
- CheckoutSafety.VerifiedThenFulfilled: says nothing sharper when a misfiled latest proof was verified at the very instant of the callback, where the database leaves the choice open.
- Inbox.InboxTables.AcceptWebhook: starts after authentication and normalisation; unknown merchants and providers, bad signatures, malformed bodies, redaction and dead letters are not modelled, and a lost insert race is the known-key case.
- Inbox.InboxTables.MaterializeInbox: whether applying an event raises is an input; a raise rolls the transaction back.
- InboxDeferred.DeferredExactly: leaves out inbox statuses, where a redelivered row is processed in one path and duplicate in the other.
- PaymentLinks.LinkDesk.CreateOrder: the random token of a generated receipt is an input; identifiers, currency of the stored row and payloads are not modelled.
- PaymentLinks.LinkDesk.CreatePaymentLink: the random token of a generated reference is an input; a link of an unknown execution is refused as its foreign key is, and the executions are those of one merchant.
- PaymentLinks.LinkDesk.SimulateOutcome: the signed webhook each outcome emits is left to the inbox and ledger models, and its rejection is not modelled.
- PaymentLinks.LinkDesk.CancelOpenLinks: the webhook emitted for each cancelled link is left to the inbox and ledger models.
- Executor.ExecutorTables.DispatchAction: the provider's answer is an input, and the outcome dictionary is reduced to partial success, retries, retry time, recovered count and value, and stop reason; a dispatch that crashes is rolled back with its transaction and not counted as a dispatch.
- Executor.ExecutorTables.RequestExecution: the policy verdict is an input, and human ids are taken from the number of executions of one sequential store, so two concurrent requests never share one.
- Executor.ExecutorTables.MonitorExecution: outcome fields a real provider reports are reduced to whether the success was partial.
- Executor.ExecutorTables.HaltExecution: taken as one transaction; the code commits with the webhook of each cancelled link, so a rejected webhook can leave some links cancelled while the execution is still active.
- ExecutorRuns.DispatchBound: counts the dispatches on record; `ExecutorCalls.AllCallsBounded` counts those that crash too.
- ExposureRuns.ExposureBound: holds along runs in which each execution's links are those of its own launch; `ExposureRuns.HandMadeExactly` says when one link made by hand leaves the bound standing.
- ReliabilityTheorems.CorrectIsClean: consistent ids, captures that do not shrink and complete delivery are assumed; each is shown to be what its invariant needs.
- RateLimiter.Limiter.Handle: clock readings are real numbers and an identity is its digest; concurrency between requests and the response bodies are not modelled.
- TrainingRows.BuildDataset: computes rates over real numbers, and leaves out the one-hot columns, the amount column and the labels.
- RollingFeatures.BuildRolling: takes rows in order of epoch, which `TrainingRows.BuildDataset` establishes.
- Money.FormatInr: rounds the exact quotient, where the program rounds a binary one, which may differ for amounts too large for it; the compact format is not modelled.
- `monitor_open_executions` and the worker loop: they only repeat operations modelled here.
- Policy evaluation: a branch table; its verdict is an input of the executor.
- Message bus, HTTP routes, event streams, dashboards, reports, migrations and the web interface: plumbing without an invariant of its own.
- Statistical parts (models, detectors, forecasts, experiments, the twin): claims about floating-point estimates.
