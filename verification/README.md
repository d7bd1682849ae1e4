# Verification of the shop's returns, payments, orders and stock

This project models the state machines of an e-commerce back end and proves what every run of them keeps.
The largest part is returns and refunds: one order, any number of return requests against its lines, any number
of refunds against its captured payment, and provider replies and webhooks that arrive late, twice or out of
order. Beside it stand payment attempts, checkout with its stock, and five smaller components.

Operations are pure transitions over rows (`ReturnFlow`, `PaymentAttempts`, `Stock`, `Menus`), over which the
theorems are proved for every sequence of events. The classes `ReturnsService.ReturnsDatabase`,
`PaymentsService.PaymentsDatabase`, `Stock.OrdersDatabase` and `Menus.MenusDatabase` do the same work step by
step, in the loops and in the order of the services, and each of their methods is proved to leave exactly the
rows, and give exactly the reply, of its transition. `ReturnsDatabase` also keeps the history of its calls, so that
what is proved of every run holds of its fields after any calls (`ReturnsService.ServicesAreSafe`). The arithmetic
and parsing loops are methods proved against independent statements of what they should compute.

What a single operation means is stated apart from how it is computed: `ReturnStages`, `ProviderReports`,
`PaymentOutcomes` and `StockOutcomes` say exactly when each operation goes through and everything it then leaves,
with the shop's statuses, limits and provider words written out, and carry these statements over whole runs.

| file | component |
|---|---|
| `Prelude.dfy` | options, sums over sequences |
| `ReturnRules.dfy` | the pure rules: held units, price paid, refund per units, eligibility, order status |
| `ReturnFlow.dfy` | every operation on returns and refunds as a transition, events and runs, hypotheses H1, H2, H4 |
| `ReturnSafety.dfy` | quantities along an item, no over-return |
| `RefundSafety.dfy` | captured amount, payment status, confluence of settlement, one payout per return |
| `ReturnStages.dfy` | what each operation on a return asks and writes: who may return what, quantities, verdicts |
| `ProviderReports.dfy` | from a provider's words to the final refund, return and payment |
| `FullReturn.dfy` | delivery charge, amount due on retry, order status |
| `Payouts.dfy` | a completed return was paid by one of the refunds sent for it |
| `MoneyBack.dfy` | a full return pays the order back |
| `ReturnJourneys.dfy` | the usual course of one return, from any state of the others |
| `ReturnWitnesses.dfy` | runs that need H1, H2 and H4, and the return that rounding locks out |
| `ReturnsService.dfy` | the same operations as methods over mutable rows |
| `PaymentAttempts.dfy` | attempts, the three phases of `finalizeCapture`, captured payments that are not recorded |
| `PaymentWitnesses.dfy` | runs that lose a captured payment or overwrite a refunded one |
| `PaymentOutcomes.dfy` | what a payment must have taken, and what each outcome leaves |
| `PaymentsService.dfy` | the same operations and the reconciliation sweep as methods over mutable rows |
| `Stock.dfy` | checkout, cancelling, the expiry sweep, idempotency keys, coupon limits, hypothesis H3 |
| `StockOutcomes.dfy` | what each step of checkout, cancelling and paying does to an order and the shelf |
| `StockWitnesses.dfy` | runs that need H3, keep stock for good, or overuse a coupon |
| `Totals.dfy` | coupons, VAT, order totals |
| `Shipping.dfy` | working days, delivery rates and quotes |
| `Csv.dfy` | the product import's CSV scanner against a printer |
| `Calendar.dfy`, `Reports.dfy` | days, weeks, months and the sales report |
| `Menus.dfy` | menu trees and their re-parenting |

`dafny verify dfyconfig.toml` checks everything.

## Conventions

Money is whole pennies and percentages are whole hundredths of a percent; shares that are not whole pennies are
exact reals until they are rounded, half a penny upwards. Row ids are positions in sequences to which rows are
only ever appended. A provider, a clock and the network are parameters or events. Each endpoint's
load-check-write is one atomic step; `finalizeCapture` is split at its three phases, a refund at its
reservation, the recording of the provider's reply and its settlement, and checkout at its first check, its
transaction and its recovery from a lost race. Webhooks are steps of their own: `ReturnFlow.Notice` is what an event
says of a refund, and `ReturnFlow.NoticeVerdict` what its type and status decide.

## Hypotheses

The code does not enforce these. They are explicit preconditions, and each comes with a run, from rows as they
are before anything happens, that shows the theorem fails without it.

| name | statement | run without it |
|---|---|---|
| `ReturnFlow.H1` | inspecting an item again does not raise its accepted quantity | `ReturnWitnesses.SecondInspectionOverReturns` |
| `ReturnFlow.H2` | a provider never confirms a refund it reported as failed | `ReturnWitnesses.LateConfirmationOverRefunds` |
| `Stock.H3` | no payment outcome lands on a cancelled order | `StockWitnesses.PaymentRevivesCancelled` |
| `ReturnFlow.H4` | no return is approved for refund while another of the order awaits or receives its refund | `ReturnWitnesses.OverlappingRefundsLoseDelivery` |

Each theorem over runs takes only the hypotheses it needs:

| theorem | hypotheses |
|---|---|
| the quantity chain and one open refund per return in refund (`ShapeRun`, `OneOpenRun`) | none |
| the order's status matches the units back and never falls (`StatusOfAnyRun`) | none |
| the payment status follows the confirmed amount; settlement is confluent | none |
| no line is returned beyond its quantity; the item totals of a full return (`NoOverReturn`, `FullReturnOfAnyRun`) | H1 |
| refunds stay within the captured payment; one payout, by one attempt (`NeverOverRefunded`, `PaysOutOnce`, `PaidOfAnyRun`) | H2 |
| the delivery charge is refunded once, when everything is back (`DeliveryOfAnyRun`) | H4 |
| every payout is the amount in the return's rows (`BooksRun`) | H2 and H4 |
| a full return pays the order's total back (`FullReturnOfAnyRun`) | H1, H2 and H4 |
| stock is conserved (`StockConserved`) | H3 |
| payments are sound, resolved attempts final, at most one payment recorded; checkout is idempotent | none |

## Findings

- Rounding up per item lets refunds sum to more than was captured. The last return of an order split over
  several returns is then refused, stays approved for refund, and every retry is refused again
  (`ReturnWitnesses.SplitReturnIsRefused`); `FullReturn.RetryGoesThroughIff` says exactly when a retry succeeds.
- Inspecting an item again can accept units that the first inspection gave back and another return has taken
  since; `ReturnSafety.InspectWithinOrderIff` says exactly when it stays within the order.
- A refund recorded as failed can still be settled as processed by a late webhook, after its replacement was
  sent; `RefundSafety.ConfirmWithinCapturedIff` says exactly when that stays within the captured amount.
- A payment outcome is written to the order unless the order is PAID. A captured payment revives a cancelled
  order over stock that was given back (`Stock.PaymentConservesIff`), and the late failure of an earlier attempt
  marks a refunded order as failed (`PaymentAttempts.PaymentStatusStandsIff`).
- A captured payment may be recorded nowhere: when two attempts of an order are both captured, and when a call
  stops between changing its attempt and writing the order (`PaymentWitnesses.SecondCaptureIsLost`,
  `PaymentWitnesses.CrashLosesPayment`). No later call records it and no refund can be made of it.
  `PaymentAttempts.CaptureIsRecordedIff` says exactly when a call records its own payment, and
  `PaymentAttempts.TransactionIffRecorded` which captured attempts have a transaction after a run.
- Two returns approved for refund at the same time each find the other incomplete, and the delivery charge is
  refunded by neither; `FullReturn.CompletionDeliveryIff` says exactly when a completion keeps the charge right.
- An order whose payment failed keeps its stock (`StockWitnesses.FailedPaymentKeepsStock`): the expiry sweep
  cancels exactly the orders that still await payment since before the cutoff (`Stock.SweepIff`).
- A coupon's usage limit is read before the transaction that counts the use, so two checkouts at once exceed it
  (`StockWitnesses.CouponOverused`); `Stock.CommitWithinLimitIff` says exactly when a checkout does not.
- The CSV scanner takes a carriage return at the end of a record's last field for half a line end
  (`Csv.CarriageReturnLost`, `Csv.LastCarriageReturnLost`) and drops a last record that is a single empty field
  without a line end (`Csv.EmptyRecordLost`); `Csv.RoundTripIff` and `Csv.UnendedRoundTripIff` say exactly when
  records come back.
- Giving a flat delivery rate as an explicit null passes the check against the stored rate and then erases it
  (`Shipping.NullErasesFlatRate`); `Shipping.FlatRateKeptIff` says exactly when a rate is kept.
- Neighbouring weight bands share their boundary weight, which either of them may price
  (`Shipping.NeighboursShareWeight`); `Shipping.SharedOnlyAtBoundary` says that they share no other.

## Model

| member | source | states |
|---|---|---|
| ReturnRules.UnitsRefundMonotone | src/modules/returns/return-rules.ts:46-55 | returning more units never refunds less, and no number of units refunds more than the rounded price of the line |
| ReturnRules.UnitsRefundAdditive | src/modules/returns/return-rules.ts:52-55 | refunding a units and b units apart is within a penny of refunding them together |
| ReturnRules.UnitsRefundClose | src/modules/returns/return-rules.ts:52-55 | a refund is within half a penny of the exact price of the units |
| ReturnRules.UnitsRefundExact | src/modules/returns/return-rules.ts:46-55 | in whole numbers: a refund is the units' part of the line less its own discount and its share of the order's, to the nearest penny, half a penny rounding up |
| ReturnRules.OrderStatusAfterReturnsMeaning | src/modules/returns/return-rules.ts:96-101 | RETURNED exactly when every line is back, PARTIALLY_RETURNED when some unit but not all are, otherwise unchanged |
| ReturnStages.HeldByStage | src/modules/returns/return-rules.ts:26-34 | a return item holds the quantity of the stage its return has reached: requested, approved, received, accepted, or none once rejected or cancelled |
| ReturnStages.BackByStage | src/modules/returns/return-rules.ts:36-39 | only the accepted units of a completed return count as brought back |
| ReturnStages.WorthByStage | src/modules/admin/payment-operations/admin-returns.service.ts:112-123 | an item is calculated at the price of the units of the stage it has reached, less its deduction |
| ReturnStages.CreateIff | src/modules/returns/return-rules.ts:72-93 | a request is granted exactly when it names 1 to 50 different lines of a delivered order, none cancelled, each of a returnable product and before the end of its last day, for at least one unit and no more than are free |
| ReturnStages.CreateRecords | src/modules/storefront/returns/returns.service.ts:122-137 | a granted request adds one return of exactly those items, and the units held of each line rise by what was asked |
| ReturnStages.EndpointsIff | src/modules/admin/payment-operations/admin-returns.service.ts:195-249 | which statuses withdrawing, rejecting, scheduling, collecting and starting inspection accept, and that they write the status alone |
| ReturnStages.StatusFollows | src/modules/admin/payment-operations/admin-returns.service.ts:177-363 | no event of any kind moves a return's status but along seventeen listed steps; what was collected is never rejected unseen, and what ended stays ended |
| ReturnStages.ApproveIff | src/modules/admin/payment-operations/admin-returns.service.ts:177-183 | a request is approved exactly when it is new and every item and nothing else is given a quantity, at most the one asked for and not all zero |
| ReturnStages.ApproveRecords | src/modules/admin/payment-operations/admin-returns.service.ts:185-188 | approval writes on each item the quantity given for it, and changes nothing else but the status |
| ReturnStages.ReceiveIff | src/modules/admin/payment-operations/admin-returns.service.ts:225-233 | a return is received exactly while it is being collected and every item is given a quantity, at most the approved one |
| ReturnStages.ReceiveRecords | src/modules/admin/payment-operations/admin-returns.service.ts:235-238 | receipt writes on each item the quantity given for it, and changes nothing else but the status |
| ReturnStages.InspectIff | src/modules/admin/payment-operations/admin-returns.service.ts:251-266 | an inspection is recorded exactly when the verdict fits the item and a deduction has its reason and does not exceed the price of the accepted units |
| ReturnStages.InspectRecords | src/modules/admin/payment-operations/admin-returns.service.ts:257-276 | an accepted item has accepted all its received units, a partly accepted one the number named, and a rejected one none, for a refund of nothing; nothing else changes |
| ReturnStages.VerdictsOfAnyRun | src/modules/admin/payment-operations/admin-returns.service.ts:251-281 | in every reachable state every item carries its verdict so, however often it was inspected and however its return was closed |
| ReturnStages.ApproveRefundIff | src/modules/admin/payment-operations/admin-returns.service.ts:309-336 | a refund is approved exactly during inspection once everything that arrived has its verdict; what never arrived is then rejected, verdicts stand, and the return leaves inspection even when the refund is refused |
| ReturnStages.RejectedPaysNothing | src/modules/admin/payment-operations/admin-returns.service.ts:309-336 | a return of which nothing was accepted is worth nothing and, unless it is owed the delivery charge, is completed without a refund |
| ReturnSafety.ShapeRun | src/modules/admin/payment-operations/admin-returns.service.ts:177-281 | every run keeps accepted <= received <= approved <= requested on every item, each recorded exactly from its stage on, and every refund tied to a return past inspection |
| ReturnSafety.NoOverReturn | src/modules/storefront/returns/returns.service.ts:111-137 | under H1, in every reachable state the units held by all returns of a line never exceed the ordered quantity |
| ReturnSafety.ReleasedForGood | src/modules/returns/return-rules.ts:28-34 | a rejected or cancelled return is never changed again by any run, so the units it released stay released |
| ReturnSafety.InspectWithinOrderIff | src/modules/admin/payment-operations/admin-returns.service.ts:251-257 | an inspection keeps its line within the order exactly when the accepted units fit in what the item held plus what is free |
| ReturnSafety.DeductionsAddUp | src/modules/admin/payment-operations/admin-returns.service.ts:257-266 | in every reachable state an inspected item's recorded refund and deduction add up to the price of its accepted units |
| RefundSafety.NeverOverRefunded | src/modules/admin/payment-operations/payment-operations.service.ts:47-75 | under H2, pending, sent and processed refunds together never exceed the captured payment, direct and return refunds mixed freely |
| RefundSafety.ConfirmWithinCapturedIff | src/modules/returns/refund-settlement.service.ts:32-46 | a confirmation keeps refunds within the captured payment exactly when the refund was still counted or the room it frees is still there |
| RefundSafety.PaymentStatusIsProcessedSum | src/modules/returns/refund-settlement.service.ts:121-128 | from a paid order, every run leaves PAID exactly while nothing is confirmed, REFUNDED exactly when the confirmed refunds reach the captured amount, PARTIALLY_REFUNDED exactly in between |
| ProviderReports.WordsDecide | src/modules/returns/refund-settlement.service.ts:12-17 | in any letter case, succeeded and completed confirm a refund; failed, canceled, cancelled and denied decline it; nothing else decides |
| ProviderReports.ReplySettles | src/modules/admin/payment-operations/payment-operations.service.ts:69-73 | a reply, recorded and settled, leaves the refund processed, failed or still processing as its word says, and findable by the provider's id |
| ProviderReports.OtherAnswersSettle | src/modules/admin/payment-operations/payment-operations.service.ts:58-73 | a call that throws fails the refund, and a refund without an online provider is processed at once |
| ProviderReports.ReplyMovesReturn | src/modules/returns/refund-settlement.service.ts:48-60 | a reply leaves the return completed, back for a retry or still in processing as its word says, and no other return changes |
| ProviderReports.NoticeSettles | src/modules/payments/payment-webhooks.service.ts:131-136 | for every refund and every webhook: it ends processed, failed or as it was, by the event types and words written out, and only the refund the webhook names may change |
| ProviderReports.PaidOnlyIfSaid | src/modules/returns/refund-settlement.service.ts:19-36 | on every run, a refund ends as paid only if some answer to its call or some confirmation of its id said so |
| ProviderReports.RefundedOrder | src/modules/returns/refund-settlement.service.ts:121-128 | from a paid order, a refund of all of it that is confirmed ends REFUNDED, of part of it PARTIALLY_REFUNDED, and one that is not confirmed PAID |
| RefundSafety.ProcessedIffConfirmed | src/modules/returns/refund-settlement.service.ts:32-46 | over any run a refund ends processed exactly if it was, or some reply or webhook confirmed it, and its amount never changes |
| RefundSafety.OneOpenRun | src/modules/returns/refund-settlement.service.ts:48-60 | with no hypothesis, every run keeps exactly one open refund for each return in REFUND_PROCESSING and none for any other return |
| RefundSafety.ConfirmedAfterDeclined | src/modules/returns/refund-settlement.service.ts:32-61 | a failure before a confirmation makes no difference to any row: refund, payment, return or order |
| RefundSafety.SettlementConfluent | src/modules/payments/payment-webhooks.service.ts:266-270 | two series of deliveries with the same verdicts for one refund, in any order and with any repeats, leave identical rows everywhere: refunds, payment, returns and order status |
| RefundSafety.SettleAllOutcome | src/modules/returns/refund-settlement.service.ts:32-46 | after any series of verdicts a refund is processed iff it was or one of them confirmed it |
| RefundSafety.OpenMeansProcessing | src/modules/returns/refund-settlement.service.ts:48-60 | an open refund of a return means the return is being refunded and it is its only refund |
| RefundSafety.PaysOutOnce | src/modules/returns/refund-settlement.service.ts:48-60 | under H2, REFUND_PROCESSING means exactly one open refund, REFUND_APPROVED none open or processed, COMPLETED none open and at most one paid, after any failures and retries |
| FullReturn.RetryTotal | src/modules/admin/payment-operations/admin-returns.service.ts:112-137 | the calculation comes to the same amount on a retry as at approval, delivery included |
| FullReturn.RetryGoesThroughIff | src/modules/admin/payment-operations/admin-returns.service.ts:339-363 | a retry succeeds exactly when the total calculated now is positive and the captured payment has room for it, and otherwise changes nothing, with any number of other returns in refund |
| FullReturn.CompletionDeliveryIff | src/modules/admin/payment-operations/admin-returns.service.ts:125-133 | completing a refunded return keeps the delivery charge on one return iff everything is back exactly when the amount fixed at its approval is what the calculation comes to now |
| FullReturn.RefundSentIsTotal | src/modules/admin/payment-operations/admin-returns.service.ts:335-363 | every refund sent for a return, at approval or on any retry, is the whole total calculated at that moment |
| FullReturn.StatusForward | src/modules/returns/returns-core.service.ts:69-81 | no step, late confirmations included, moves the order's status back from RETURNED or PARTIALLY_RETURNED |
| FullReturn.StatusOfAnyRun | src/modules/returns/returns-core.service.ts:69-81 | with no hypothesis, every run leaves RETURNED exactly when all units are back in completed returns and PARTIALLY_RETURNED exactly when some but not all are, and never moves the status back |
| FullReturn.DeliveryOfAnyRun | src/modules/admin/payment-operations/admin-returns.service.ts:125-133 | under H4 alone, every run leaves the delivery charge with exactly one completed return once every unit is back and with none before |
| FullReturn.BooksRun | src/modules/admin/payment-operations/admin-returns.service.ts:309-363 | under H2 and H4, every run keeps each refund at the amount its return's rows say is due |
| Payouts.PaidOfAnyRun | src/modules/returns/refund-settlement.service.ts:48-60 | from a fresh order, under H2 alone: a return that is not completed has been paid nothing, and a completed one exactly the total calculated when one of its refunds was sent, by an approval or a retry of the run, or nothing if its approval came to nothing |
| MoneyBack.PaidForIsDue | src/modules/returns/refund-settlement.service.ts:48-60 | while refunds do not overlap, a completed return's processed refunds also sum to the amount its rows say is due, and any other return's to nothing |
| MoneyBack.NetPricesAddUp | src/modules/returns/return-rules.ts:46-49 | for an order as checkout makes it, the exact net prices of the lines sum to subtotal less discount |
| MoneyBack.ItemTotalsClose | src/modules/returns/return-rules.ts:46-60 | when every unit is back, the refunds and deductions recorded on the items come to the net price of the lines within half a penny per returned item, however the units were split and however they were refunded |
| MoneyBack.FullReturnPaysBack | src/modules/returns/return-rules.ts:46-60 | in such a state the refunds paid plus deductions miss the order's total by exactly as much as the item totals miss the net price |
| MoneyBack.ReturnsOfAnyRun | src/modules/admin/payment-operations/admin-returns.service.ts:177-363 | for a delivered order and any run, each conclusion under its own hypothesis: the status right (none), no over-return (H1), every return paid by one attempt (H2), the delivery charge once (H4), every completed return paid what its rows say (H2 and H4) |
| MoneyBack.FullReturnOfAnyRun | src/modules/admin/payment-operations/admin-returns.service.ts:309-363 | any run that ends with every unit back leaves the order RETURNED (no hypothesis), its item totals within the rounding bound (H1), the delivery charge with a return (H4), and the order's total paid back within the same bound (all three) |
| ReturnJourneys.JourneyReaches | src/modules/admin/payment-operations/admin-returns.service.ts:177-281 | from any rows, a return of one item whose whole quantity is approved and received without the collection step, and inspected without a deduction, reaches inspection by its six operations, and nothing else changes |
| ReturnJourneys.JourneyKeeps | src/modules/admin/payment-operations/admin-returns.service.ts:177-281 | such a return meets H1, H2 and H4 |
| ReturnWitnesses.SecondInspectionOverReturns | src/modules/admin/payment-operations/admin-returns.service.ts:251-257 | without H1 but under H2 and H4, from a fresh order, a second inspection returns more units than were ordered |
| ReturnWitnesses.LateConfirmationOverRefunds | src/modules/returns/refund-settlement.service.ts:32-46 | without H2 but under H1 and H4, a run from a fresh order refunds more than was captured |
| ReturnWitnesses.OverlappingRefundsLoseDelivery | src/modules/admin/payment-operations/admin-returns.service.ts:125-133 | without H4 but under H1 and H2, a run from a fresh order passes a state that keeps every invariant, approves a second refund beside the first, and ends with everything back and nobody refunded the delivery charge |
| ReturnWitnesses.SplitReturnIsRefused | src/modules/admin/payment-operations/payment-operations.service.ts:51-52 | from a fresh order, a return whose rounded refund exceeds what is left of the payment is refused at approval and at retry |
| ReturnsService.ReturnsDatabase.CreateReturn | src/modules/storefront/returns/returns.service.ts:73-146 | creates a return exactly when every line asked for is of the order, eligible and within its returnable units, and appends exactly those items |
| ReturnsService.ReturnsDatabase.CancelReturn | src/modules/storefront/returns/returns.service.ts:160-166 | only a request not yet reviewed can be withdrawn |
| ReturnsService.ReturnsDatabase.ApproveReturn | src/modules/admin/payment-operations/admin-returns.service.ts:177-193 | records every approved quantity, none above the requested one and at least one positive, or changes nothing |
| ReturnsService.ReturnsDatabase.ReceiveReturn | src/modules/admin/payment-operations/admin-returns.service.ts:225-242 | records every received quantity, none above the approved one, or changes nothing |
| ReturnsService.ReturnsDatabase.RejectReturn | src/modules/admin/payment-operations/admin-returns.service.ts:195-204 | rejects a requested, approved or scheduled return, changing the status alone, and refuses any other |
| ReturnsService.ReturnsDatabase.ScheduleReturnPickup | src/modules/admin/payment-operations/admin-returns.service.ts:206-215 | books or rebooks the pickup of an approved or scheduled return, and refuses any other |
| ReturnsService.ReturnsDatabase.MarkReturnPickedUp | src/modules/admin/payment-operations/admin-returns.service.ts:217-223 | collects a scheduled return, and refuses any other |
| ReturnsService.ReturnsDatabase.StartReturnInspection | src/modules/admin/payment-operations/admin-returns.service.ts:244-249 | starts inspecting a received return, and refuses any other |
| ReturnsService.ReturnsDatabase.Inspect | src/modules/admin/payment-operations/admin-returns.service.ts:251-281 | records the verdict, accepted units, deduction and refund of one item, or refuses |
| ReturnsService.ReturnsDatabase.WriteOrderStatus | src/modules/returns/returns-core.service.ts:69-81 | leaves the order with the status its completed returns call for |
| ReturnsService.ReturnsDatabase.ReserveRefund | src/modules/admin/payment-operations/payment-operations.service.ts:42-55 | adds one pending refund exactly when a payment was captured and has room for it |
| ReturnsService.ReturnsDatabase.ApproveRefundOf | src/modules/admin/payment-operations/admin-returns.service.ts:309-336 | closes uninspected items as rejected, fixes the delivery charge, and completes the return or sends its refund; a refused refund leaves it approved |
| ReturnsService.ReturnsDatabase.Retry | src/modules/admin/payment-operations/admin-returns.service.ts:339-348 | sends what is still outstanding, or refuses |
| ReturnsService.ReturnsDatabase.SettleRefund | src/modules/returns/refund-settlement.service.ts:32-61 | leaves a final refund alone; otherwise settles it, the payment status, the return and the order together |
| ReturnsService.ReturnsDatabase.RecordAnswer | src/modules/admin/payment-operations/payment-operations.service.ts:58-70 | writes the provider's id and PROCESSING whatever the refund's status, or settles a thrown error as failed |
| ReturnsService.ReturnsDatabase.RefundOrderAmount | src/modules/admin/payment-operations/payment-operations.service.ts:78-86 | refunds an amount for no return exactly when a payment was captured and has room for it |
| ReturnsService.ReturnsDatabase.SettleByProviderId | src/modules/payments/payment-webhooks.service.ts:266-270 | settles the refund that carries the provider's id, and does nothing when none does |
| ReturnsService.ReturnsDatabase.ReceiveWebhook | src/modules/payments/payment-webhooks.service.ts:241-246 | of all events, a Stripe refund event or a PayPal refund of a capture settles its refund as the event's type and status say; a status that is not final, or a missing refund id, changes nothing |
| ReturnsService.ServicesAreSafe | src/modules/admin/payment-operations/admin-returns.service.ts:177-363 | after any calls of the service methods on a delivered order the fields satisfy what is proved of every run, each guarantee under its own hypothesis on the calls |
| PaymentAttempts.TerminalIffNoWayOut | src/modules/payments/payment-state.service.ts:8-19 | the statuses treated as resolved are exactly those the table gives no way out of |
| PaymentOutcomes.TransitionIff | src/modules/payments/payment-state.service.ts:8-19 | attempts move only forward, except by way of UNKNOWN; one in processing never expires and an authorized one is neither declined nor expired; every unresolved one can be captured or fail |
| PaymentOutcomes.CreateIff | src/modules/payments/payment-attempts.service.ts:48-86 | an attempt, created at the order's total, is added exactly for a payable order that is not paid or refunded, under a key nobody has used |
| PaymentOutcomes.PaymentsOfAnyRun | src/modules/payments/payment-attempts.service.ts:138-147 | over any interleaving, every recorded payment was reported by a captured call whose amount and currency, as far as given, are the order's total and the attempt's currency, and no call that says otherwise is ever about to write the order |
| PaymentOutcomes.WrongPaymentFails | src/modules/payments/payment-attempts.service.ts:138-147 | a captured outcome of another amount or currency fails its attempt and leaves the order, its transactions and its invoices as they were |
| PaymentOutcomes.FailedPaymentFails | src/modules/payments/payment-attempts.service.ts:150-196 | a failed outcome fails its attempt, and its order unless that is PAID |
| PaymentOutcomes.RightPaymentPays | src/modules/payments/payment-attempts.service.ts:150-189 | a captured outcome of the right amount captures its attempt, and records payment and invoice and marks the order PAID and PROCESSING exactly when it is not PAID, the id is new and no invoice exists |
| PaymentOutcomes.ResolvedIsIgnored | src/modules/payments/payment-attempts.service.ts:136-137 | a call for a resolved or unknown attempt changes nothing |
| PaymentOutcomes.SecondCallIff | src/modules/payments/payment-state.service.ts:33-36 | of two calls that both found an attempt unresolved the first resolves it, and the second goes on exactly when it brings the same outcome, and otherwise throws |
| PaymentOutcomes.SweepResolves | src/modules/payments/payment-reconciliation.service.ts:53-80 | a sweep resolves exactly the attempts found paid, as captured when the provider took the order's total and as failed otherwise, and touches no other attempt |
| PaymentAttempts.SoundRun | src/modules/payments/payment-attempts.service.ts:135-197 | every interleaving of every call keeps attempts priced at the order total, keys unique, calls in agreement with their attempts, and at most one transaction and invoice |
| PaymentAttempts.OrderWriteMatchesAttempt | src/modules/payments/payment-attempts.service.ts:135-157 | a call about to write the order carries the outcome stored on its attempt, so conflicting calls of one attempt cannot both write |
| PaymentAttempts.TerminalForGood | src/modules/payments/payment-state.service.ts:33-44 | no run changes a resolved attempt's status, amount, key or currency |
| PaymentAttempts.PaidIffRecordedOnce | src/modules/payments/payment-attempts.service.ts:159-197 | before any refund, the order is PAID iff it has exactly one transaction and one invoice, both for its total |
| PaymentAttempts.AtMostOnePayment | src/modules/payments/payment-attempts.service.ts:165-185 | no run, refunds included, records a second payment or invoice, and a settled order has one |
| PaymentAttempts.CaptureIsRecordedIff | src/modules/payments/payment-attempts.service.ts:159-185 | a captured call that reaches the order adds its own transaction exactly when the order is not PAID, the transaction id is new and there is no invoice yet; otherwise no transaction is added |
| PaymentAttempts.TransactionIffRecorded | src/modules/payments/payment-attempts.service.ts:135-197 | over any run an attempt has a transaction exactly if it had one or some step met that condition for it |
| PaymentAttempts.SecondCaptureHasNone | src/modules/payments/payment-attempts.service.ts:163 | of two captured attempts of one order, at most one has a transaction, on every run |
| PaymentAttempts.StrandedForGood | src/modules/payments/payment-attempts.service.ts:136-137 | a captured attempt with no transaction and no call under way is never recorded by any later run |
| PaymentAttempts.PaymentStatusStandsIff | src/modules/payments/payment-attempts.service.ts:162-192 | a late outcome leaves a settled order's payment status standing exactly when it is a capture or the order is PAID |
| PaymentWitnesses.LateFailureOverwritesRefund | src/modules/payments/payment-attempts.service.ts:163-191 | from an unpaid order, a run in which a partly refunded order is marked failed by an earlier attempt's late failure |
| PaymentWitnesses.SecondCaptureIsLost | src/modules/payments/payment-attempts.service.ts:163 | from an unpaid order, both attempts are captured, one pays the order, and the other never has a transaction whatever follows |
| PaymentWitnesses.CrashLosesPayment | src/modules/payments/payment-attempts.service.ts:150-159 | from an unpaid order, a call that stops after changing its attempt leaves the order pending and the payment unrecorded whatever follows |
| PaymentsService.FinalizeIsRun | src/modules/payments/payment-attempts.service.ts:135-201 | an uninterrupted call is one of the interleavings |
| PaymentsService.ReconcileIsSound | src/modules/payments/payment-reconciliation.service.ts:42-80 | a reconciliation sweep, whatever the providers answer, keeps everything the runs keep |
| PaymentsService.PendingMeaning | src/modules/payments/payment-reconciliation.service.ts:43-52 | a sweep looks at exactly the unresolved attempts of online providers that the provider knows, older than ten minutes and younger than a day, each once |
| PaymentsService.PaymentsDatabase.CreateAttempt | src/modules/payments/payment-attempts.service.ts:39-86 | a key names one attempt, priced at the order's total; paid or unpayable orders and keys of other orders are refused |
| PaymentsService.PaymentsDatabase.ChangeStatus | src/modules/payments/payment-state.service.ts:25-51 | moves an attempt along the table, allows its own status again, refuses everything else |
| PaymentsService.PaymentsDatabase.BeginCapture | src/modules/payments/payment-attempts.service.ts:135-142 | ends a call on a resolved attempt, and flags a capture of the wrong amount or currency |
| PaymentsService.PaymentsDatabase.MoveAttempt | src/modules/payments/payment-attempts.service.ts:143-155 | changes the attempt's status; a flagged payment fails and goes no further |
| PaymentsService.PaymentsDatabase.WriteOutcome | src/modules/payments/payment-attempts.service.ts:157-197 | writes transaction, order and invoice together or not at all |
| PaymentsService.PaymentsDatabase.FinalizeCapture | src/modules/payments/payment-attempts.service.ts:135-201 | the three phases in order |
| PaymentsService.PaymentsDatabase.SettlePending | src/modules/payments/payment-reconciliation.service.ts:42-63 | finds the pending attempts, finalises those the provider says are paid, and counts the calls that did not throw |
| Stock.TakeIff | src/modules/storefront/orders/orders.service.ts:212-219 | the decrement loop succeeds exactly when, for every variant, the lines together ask for no more than is in stock |
| Stock.TakeMoves | src/modules/storefront/orders/orders.service.ts:212-219 | what a successful loop takes from each variant is what the lines ask for, and no stock goes negative |
| StockOutcomes.BoughtOfAnyRun | src/modules/storefront/orders/orders.service.ts:82-97 | on every run, every order and every checkout about to create one has lines, of at least one unit each, all of variants that are sold |
| StockOutcomes.CheckIff | src/modules/storefront/orders/orders.service.ts:73-97 | the first check answers a known key with the same customer's order or a refusal, and otherwise goes on exactly when the cart is not empty, every line is in stock and the coupon is below its limit |
| StockOutcomes.CommitIff | src/modules/storefront/orders/orders.service.ts:152-228 | the transaction creates the order as it was asked for, awaiting payment, takes each variant's units and counts the coupon exactly when the key is unused and the stock suffices, and otherwise leaves nothing behind |
| StockOutcomes.RecoverIff | src/modules/storefront/orders/orders.service.ts:229-237 | a lost race is answered with the order that carries the key when it is the same customer's, and refused otherwise |
| Stock.StockConserved | src/modules/storefront/orders/orders.service.ts:152-237 | under H3, over every run no stock is negative and stock plus units in orders that are not cancelled is constant for every variant |
| Stock.PaymentConservesIff | src/modules/payments/payment-attempts.service.ts:162-192 | a payment outcome keeps that sum exactly when its order is not cancelled or is already paid |
| StockOutcomes.CancelledIff | src/modules/storefront/orders/orders.service.ts:384-389 | of all steps, an order is cancelled exactly by its own customer while it is PENDING, AWAITING_PAYMENT or PROCESSING, or by a sweep while it is AWAITING_PAYMENT and its payment PENDING |
| StockOutcomes.CancelGivesBack | src/modules/storefront/orders/orders.service.ts:390-402 | whatever cancels an order gives back exactly its units of every variant and changes nothing else |
| StockOutcomes.CancelledForGood | src/modules/storefront/orders/order-expiry.service.ts:46-51 | under H3 a cancelled order is never changed again |
| StockOutcomes.PaymentLandsAsWritten | src/modules/payments/payment-attempts.service.ts:162-191 | the payment outcomes of the stock model change an order's statuses as the payments service writes them, when its payment can be recorded |
| StockWitnesses.PaymentRevivesCancelled | src/modules/payments/payment-attempts.service.ts:163-182 | without H3, from an empty shop, a payment revives a cancelled order over stock that was given back |
| Stock.CheckoutIdempotent | src/modules/storefront/orders/orders.service.ts:73-80 | over any interleaving, at most one order carries a key, every answered checkout with it is answered with that order, and each order's coupon is counted once |
| Stock.CommitWithinLimitIff | src/modules/storefront/orders/orders.service.ts:220-222 | a checkout's transaction keeps every coupon within its total limit exactly when it fails or its coupon is still open as it begins |
| Stock.LimitsOfAnyRun | src/modules/storefront/coupons/coupons.service.ts:36-38 | when every commit finds its coupon still open, no run uses a coupon beyond its limit |
| StockWitnesses.CouponOverused | src/modules/storefront/orders/orders.service.ts:220-222 | two checkouts that both pass the limit check before either commits use a coupon once more than it allows |
| Stock.StaleMeaning | src/modules/storefront/orders/order-expiry.service.ts:40-44 | the sweep's list is the orders awaiting payment since before the cutoff, each once |
| Stock.SweepCancels | src/modules/storefront/orders/order-expiry.service.ts:46-59 | an uninterrupted sweep cancels exactly the orders of its list and changes no other |
| Stock.SweepIff | src/modules/storefront/orders/order-expiry.service.ts:39-59 | an uninterrupted sweep cancels an order exactly if it still awaits payment since before the cutoff, and leaves every other order as it is |
| StockWitnesses.FailedPaymentKeepsStock | src/modules/storefront/orders/order-expiry.service.ts:40-44 | from an order's check to its failed payment, the last unit stays taken and no sweep, whatever its cutoff, gives it back |
| Stock.OrdersDatabase.BeginCheckout | src/modules/storefront/orders/orders.service.ts:73-97 | answers a known key, refuses an empty cart or a line beyond the stock seen, or goes on |
| Stock.OrdersDatabase.CommitCheckout | src/modules/storefront/orders/orders.service.ts:152-228 | creates the order, takes the stock and counts the coupon together, or leaves nothing behind |
| Stock.OrdersDatabase.RecoverCheckout | src/modules/storefront/orders/orders.service.ts:229-237 | a lost race is answered with the winner's order when it is the same customer's |
| Stock.OrdersDatabase.CancelOrder | src/modules/storefront/orders/orders.service.ts:384-402 | cancels an own order in a cancellable status and gives every line's stock back |
| Stock.OrdersDatabase.ExpireStale | src/modules/storefront/orders/order-expiry.service.ts:39-59 | expires every stale order under its own guard and counts them |
| Totals.StaysStorable | src/modules/admin/marketing/coupons/coupons.service.ts:28-46 | no series of updates makes a stored percentage exceed 100 or its dates cross |
| Totals.UpdateIff | src/modules/admin/marketing/coupons/coupons.service.ts:28-46 | an update is accepted exactly when the row it leaves has a percentage of at most 100 and its dates in order; it writes the fields it mentions and keeps the others |
| Totals.VatIsVat | src/modules/storefront/orders/orders.service.ts:103 | a line's VAT leaves a net part that, with VAT added back at the line's rate, is the line's price: in whole numbers, to the nearest penny of VAT, half a penny rounding up |
| Totals.VatUnique | src/modules/storefront/orders/orders.service.ts:103 | no other amount does |
| Totals.VatOfOneRate | src/modules/storefront/orders/orders.service.ts:121 | where every line has one rate, the VAT total is that rate's within half a penny per line |
| Totals.VatTotalClose | src/modules/storefront/orders/orders.service.ts:99-121 | the VAT total lies between nothing and the subtotal, and within half a penny per line of the sum before rounding |
| Totals.BaseWithinSubtotal | src/modules/storefront/coupons/coupons.service.ts:58-60 | what a coupon applies to is between nothing and the subtotal |
| Totals.SaleItems | src/modules/storefront/coupons/coupons.service.ts:58-60 | lines on sale cost their sale price and others their full price; a coupon that excludes sale items applies to the cart as if they were not in it, any other to the whole cart |
| Totals.ValidateCoupon | src/modules/storefront/coupons/coupons.service.ts:24-72 | accepts exactly the usable coupons; the discount is the largest whole amount within the coupon's amount, its cap and the base, a percentage to the nearest penny |
| Totals.RefusedIff | src/modules/storefront/coupons/coupons.service.ts:28-52 | every reason to refuse a coupon, its bounds included |
| Totals.DiscountIs | src/modules/storefront/coupons/coupons.service.ts:62-71 | a fixed discount is the amount within the base and the cap, a percentage its share to the nearest penny within the cap |
| Totals.DiscountUnique | src/modules/storefront/coupons/coupons.service.ts:58-71 | what a discount is required to be leaves room for one amount only, for every coupon and base |
| Totals.PriceOrder | src/modules/storefront/orders/orders.service.ts:92-147 | discount within the subtotal, total at least the delivery charge, the VAT total the sum of the lines' VAT and within half a penny per line of a common rate, and what the customer pays plus what the coupon gives is the subtotal plus the quoted delivery |
| Totals.PricedOrdersPayBack | src/modules/storefront/orders/orders.service.ts:120-147 | an order priced by checkout meets the assumption under which a full return pays back its total |
| Shipping.AddWorkingDays | src/modules/storefront/shipping/storefront-shipping.service.ts:18-25 | exactly the given number of weekdays lie after the start up to the result, which is no weekend day and equals a closed form |
| Shipping.WorkingDaysClosed | src/modules/storefront/shipping/storefront-shipping.service.ts:18-25 | counting weekdays one by one is the difference of two closed forms |
| Shipping.LaterIsLater | src/modules/storefront/shipping/storefront-shipping.service.ts:59-60 | more working days or a later start never give an earlier date |
| Shipping.StaysStored | src/modules/admin/shipping/shipping-methods.service.ts:27-90 | no series of updates and band changes makes minimum days exceed maximum days or two bands overlap |
| Shipping.CreateStores | src/modules/admin/shipping/shipping-methods.service.ts:37-43 | a created method has its days in order |
| Shipping.CreateIff | src/modules/admin/shipping/shipping-methods.service.ts:26-43 | a method is refused exactly when it is flat and says nothing of a rate or its days are out of order, and otherwise stores what was given |
| Shipping.UpdateIff | src/modules/admin/shipping/shipping-methods.service.ts:45-59 | an update is accepted exactly when, with stored values filled in, the days are in order and a flat method has a rate; it writes the fields it mentions, null clearing them, and keeps the others |
| Shipping.AddBandIff | src/modules/admin/shipping/shipping-methods.service.ts:68-82 | a band is added exactly when it is not empty and shares no weight with a stored band but an end |
| Shipping.RemoveBandIff | src/modules/admin/shipping/shipping-methods.service.ts:84-90 | removing a band keeps exactly the others |
| Shipping.FlatRateKeptIff | src/modules/admin/shipping/shipping-methods.service.ts:45-59 | an accepted update leaves a flat method without a rate exactly when the request gives the rate as null |
| Shipping.NullErasesFlatRate | src/modules/admin/shipping/shipping-methods.service.ts:45-59 | an update that gives the rate of a stored flat method as null is accepted and leaves it without a rate |
| Shipping.SharedOnlyAtBoundary | src/modules/admin/shipping/shipping-methods.service.ts:68-82 | two bands of a method both price a weight exactly where one ends and the other begins |
| Shipping.NeighboursShareWeight | src/modules/admin/shipping/shipping-methods.service.ts:68-82 | two neighbouring bands are both accepted and price their boundary weight at different rates |
| Shipping.QuoteFor | src/modules/storefront/shipping/storefront-shipping.service.ts:33-63 | quotes exactly when a rate applies, free over the threshold, with dates the right number of working days away and the earliest not after the latest |
| Csv.CsvRecords | src/modules/admin/catalog/products/products-import.service.ts:99-118 | the character loop reads exactly the rows of the recursive scan, or reports an unterminated quote |
| Csv.RoundTripIff | src/modules/admin/catalog/products/products-import.service.ts:99-118 | scanning what was printed gives the records back exactly when no record ended by a bare line feed has a last field ending in CR; with CRLF always |
| Csv.UnendedRoundTripIff | src/modules/admin/catalog/products/products-import.service.ts:116 | a last record without a line end comes back exactly when it is not one empty field and does not end in CR |
| Csv.CarriageReturnLost | src/modules/admin/catalog/products/products-import.service.ts:99-118 | a record ended by a bare line feed loses the CR its last field ends in, quoted or not |
| Csv.LastCarriageReturnLost | src/modules/admin/catalog/products/products-import.service.ts:116 | so does a quoted last field at the end of the input |
| Csv.EmptyRecordLost | src/modules/admin/catalog/products/products-import.service.ts:116 | a last record of one empty field without a line end leaves no row |
| Csv.UnclosedIsRefused | src/modules/admin/catalog/products/products-import.service.ts:115 | after any records, a quoted field that is never closed is refused whatever it holds |
| Calendar.MonthStartStep | src/modules/admin/reports/reports.service.ts:6 | the arithmetic of month starts agrees with the lengths of months and the leap-year rule |
| Calendar.KnownMonths | src/modules/admin/reports/reports.service.ts:6 | months start on the days that bear their names, among them those after the Februaries of 1900, 2000 and 2024 |
| Calendar.GregorianCycle | src/modules/admin/reports/reports.service.ts:6 | the months recur every 400 years, 146,097 days |
| Calendar.WeeksStartOnMonday | src/modules/admin/reports/reports.service.ts:6 | a week starts on the last Monday up to the day |
| Calendar.AllSound | src/modules/admin/reports/reports.service.ts:6 | every day is in exactly one day, week or month, and after a period the cursor's step begins the very next |
| Reports.SelectMeaning | src/modules/admin/reports/reports.service.ts:9-12 | the orders reported on, each as often as it occurs, are those of the range that are PAID, PARTIALLY_REFUNDED or REFUNDED |
| Reports.RefundsArePaid | src/modules/admin/reports/reports.service.ts:11 | only refunds that were processed count |
| Reports.RevenueIsNet | src/modules/admin/reports/reports.service.ts:26-29 | the revenue of the points sums to their gross revenue less their refunds |
| Reports.EveryOrderOnce | src/modules/admin/reports/reports.service.ts:13-21 | summed over distinct periods that include every order's, each order counts once |
| Reports.PeriodsIncrease | src/modules/admin/reports/reports.service.ts:24-34 | the periods the cursor visits are strictly increasing |
| Reports.DayIsCovered | src/modules/admin/reports/reports.service.ts:24-34 | the cursor visits the period of every day of the range |
| Reports.GroupByPeriod | src/modules/admin/reports/reports.service.ts:13-21 | the map holds for every period the sums over exactly the orders placed in it |
| Reports.Sales | src/modules/admin/reports/reports.service.ts:7-36 | refuses a reversed range; otherwise lists every period once, in order and without a gap, and its counts, gross revenue and refunds sum to those of all the orders of the range |
| Menus.NoCycles | src/modules/admin/menus/menus.service.ts:10-17 | where every chain of parents ends, no item is its own ancestor |
| Menus.ClearIff | src/modules/admin/menus/menus.service.ts:10-17 | the walk refuses exactly the parents outside the menu and those at or below the item being moved |
| Menus.AddIff | src/modules/admin/menus/menus.service.ts:18 | an item is added exactly when the menu exists and the parent named, if any, is of the menu, and nothing else changes |
| Menus.UpdateIff | src/modules/admin/menus/menus.service.ts:19-21 | an item is moved exactly when it is of the menu and the parent named, if any, is of the menu and not at or below it; only its parent changes, to the one named, to none for a null, or not at all |
| Menus.RemovesSubtree | src/modules/admin/menus/menus.service.ts:22 | a removal deletes the item and everything below it and nothing else |
| Menus.StaysForest | src/modules/admin/menus/menus.service.ts:10-22 | any series of additions, moves and removals keeps every item with its parent in one menu and every chain free of cycles |
| Menus.MenusDatabase.CheckParent | src/modules/admin/menus/menus.service.ts:10-17 | the walk ends in every reachable state and accepts exactly the clear parents |
| Menus.MenusDatabase.Add | src/modules/admin/menus/menus.service.ts:18 | adds under a clear parent or as a root, or refuses |
| Menus.MenusDatabase.Update | src/modules/admin/menus/menus.service.ts:19-21 | moves an item under a clear parent, to the root, or leaves it in place |
| Menus.MenusDatabase.Remove | src/modules/admin/menus/menus.service.ts:22 | removes exactly the subtree |

## Left out

- ReturnJourneys.JourneyReaches: follows one item, received in full and without a deduction, without the collection step; it shows that the states the theorems speak of are reached, not every way to reach them.
- Floating point: money and percentages are exact, so the slack of 0.001 and of one machine epsilon in comparisons and roundings has no counterpart.
- Database isolation below the atomic steps named under Conventions; in particular approving a refund, marking it as sent and reserving it are one step.
- The de-duplication of webhooks by event id: the theorems allow any webhook to arrive any number of times.
- Webhook signatures, provider requests, settings, and the disputes that webhooks record.
- Ownership checks of returns, photos, pickup details, reasons, notes, and the timeline and audit rows, none of which feed back into a decision modelled here.
- E-mails, PDF documents, cache revalidation and low-stock alerts.
- Status edits by an administrator on the order screen, which can set any order status without touching stock or returns.
- More than one order at a time in returns and payments: identifiers used by other orders are sets that a step may run into.
- The tracking of one order's shipment; `Stock.EProgress` stands for every status change that is not a cancellation.
- The cart itself, its prices and the choice of delivery method between `Totals` and `Shipping`: a checkout request carries them.
- The choice among overlapping bands at a shared boundary weight follows database order; the model takes the order of the sequence.
- The header, the types and the product rows of the import after `csvRecords`.
- Report dates outside the years 0 to 9999, whose ten-character keys no longer tell days apart.
- Category links and mega-menu panels of menu items, and the deletion of whole menus.
- The other reports, which group without a cursor.
