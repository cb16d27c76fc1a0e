# The money path of Finyl-DCP, modelled and proved in Dafny

Finyl-DCP is the back office of a Kenyan digital lender: it disburses loans by M-Pesa, takes repayments from callbacks,
charges penalties in nightly jobs, refunds overpayments under maker-checker, and exports a double-entry ledger. This
project models that money path as loops and step machines over whole cents, together with five small algorithms beside it
(AML windows, login limiter, account lockout, customer and account numbers, migration runner), and proves what each keeps
over every input or every run.

`dafny verify dfyconfig.toml` checks the whole project.

| files | what they model |
|---|---|
| `Money`, `Loans`, `Repayments` | rounding, in duplum, what a loan owes, early payoff, applying a payment |
| `LoanLifecycle`, `LoanBook` | every step of a loan, the nightly jobs over a book, the integrity check |
| `GeneralLedger`, `LedgerBalance`, `LedgerAccounts`, `LedgerSplit`, `LedgerWindows`, `LedgerOfLoans`, `LedgerOfRefunds` | the ledger builder and its properties |
| `StkDelivery`, `StkSession` | STK callbacks delivered, duplicated, retried and rolled back |
| `MakerChecker`, `ApprovalDesk`, `SuspenseEntries`, `Contention`, `RefundBounds`, `Overpayments` | pending actions, what each step does, who decides them how often, and the refunds they send |
| `Payouts` | the payouts of one loan, requested at the same time |
| `AmlScan`, `LoginLimiter`, `AccountLockout`, `CustomerNumbers`, `AccountNumbers`, `MigrationRunner` | the algorithms |
| `Sequences`, `StableSort`, `Decimals`, `Wrappers` | queries, appending loops, Python's stable sort, numerals, options |

Code that changes state is a class or a method with loops, proved equal to a function of its inputs or old state; the
theorems are about those functions and about runs of them.

## Conventions

- Money is `int` cents. Stored amounts are two-decimal columns, so `money()` on them is the identity; where a product or
  quotient is rounded, `Money.RoundHalfUp` rounds an exact rational half away from zero. Decimal's 28-digit division is
  abstracted to that exact rational, and the floats of JSON snapshots and request bodies to the cents they print as.
- Rates are whole thousandths of a percent, as their `Numeric(6, 3)` columns hold them. Timestamps are microseconds and
  dates day numbers, except in the login limiter, whose monotonic clock is `real`.
- A query is a filter of a sequence of rows, sorted where the code says ORDER BY. A row-locked request or a callback is
  one atomic step; a rollback restores the committed state. An approval is two steps, because the commit of the refund's
  intent inside it gives up the row lock (`disbursement.py:332`); anything may come between them. Clocks, provider
  answers, random draws and failures are parameters. `HTTPException` and the other raises are `Result` values.
- A callback is one step although it does not lock its transaction's row (`payments.py:552-554`): that a transaction
  credits its loan at most once rests on this. Two success deliveries processed at the same moment, without a receipt
  number, would each generate a reference of their own, which the duplicate check then cannot match.
- The theorems about loans assume a principal and a flat interest rate that are not negative, which the schemas leave to
  whoever configures a product.

## Where code and documentation disagree

The model follows the code; each of these is a lemma.

- `accounting.py:93` says every event is internally balanced. It is, exactly when the stored row meets the conditions of
  `DisbursementBalanced`, `RepaymentBalanced` and `SuspenseBalanced`; rows written by `apply_payment` always do.
- A repayment whose components do not sum to its amount is booked without its fee, yet the fee counts as paid for later
  windows. Exports then compose for every choice of windows and loan terms exactly when no later-day fee of that loan
  follows it (`ComposesIffNoFeeAfterUnbooked`).
- `lending.py:360-363` says an account number is never reused. Numbers stay unique among the rows, but a new loan takes a
  number issued before exactly when some number above the current count is on no row and it and all between were issued
  (`ReusedIff`); within one year, exactly when one above the count was removed (`ReusedWithinYearIff`).
- `repayments.py:78` says counting completed periods never charges more than day by day. A payout sets a term of whole
  periods, for which it holds (`WholePeriodsNeverMore`); a later change of the product's tenure unit breaks it, as for
  five weeks counted in months (`FiveWeeksCountedInMonths`). It holds exactly when the counted periods cover the term
  (`CompletedPeriodsNeverMore`).
- A negative `grace_days`, which the endpoint accepts, lets the jobs default a loan before charging its penalty, so
  missed batches catch up exactly when it is not negative (`CatchUpIffGraceNonNegative`).
- `approvals.py:211` locks the action so that two checkers cannot both run its effect. The intent's commit gives the lock
  up while the action still awaits approval, so a second checker may approve it and send it again (`ApprovedTwiceAtOnce`),
  or reject it and see it approved afterwards (`RejectedThenApproved`). Whatever answers come, an action is decided at
  most once if and only if at most one decision of it took effect or is still out (`DecidedOnceIff`), and a second one
  gets in exactly when the action is taken up while an approval of it is out (`SecondContenderIff`).
- An approval whose outcome is unknown, or whose answer is never recorded, leaves its refund saved and its action open, so
  the action can be approved or rejected again while that refund is, or turns out, sent (`UnknownThenApproved`,
  `UnknownThenRejected`, `UnansweredThenPaid`, `RejectedThenPaid`). What ran is therefore counted by the refunds: an
  effect runs at most once, whatever comes next, if and only if at most one approval of it was accepted, is out, or is
  left open with a refund that has not failed (`RunsOnceIff`), and it has run exactly as decided if and only if no
  approval is left open so and no two accepted ones overlapped (`RanAsDecidedIff`). For suspense refunds the entry's status
  stands in for the lock: each runs at most once (`SuspenseRefundRunsOnce`).
- `disbursement.py:111-112` says two concurrent requests can never both pay out the same loan. They do not if and only if
  no request is answered after its payout was settled as not paid (`NeverPaidTwiceIff`, with `LateAnswerPaysTwice`).
- `refundable_overpayment` is meant to keep the refunds of a loan within its overpayment. Refunds of suspense entries
  matched to the loan count as sent but are not checked against it, refunds go out rounded up to the shilling, and an
  answer that arrives after its refund was settled as not paid revives that refund. All refunds sent on a loan stay within
  the rounded overpayment in every run if and only if no entry is matched to it and, if anything is overpaid, no answer
  comes late (`WithinCeilingIff`, with `EntryRefundedOnTop` and `LateAnswerSendsTwice` as runs); within the overpayment
  itself exactly when that is besides a whole number of shillings (`WithinIffWholeShillings`).
- `refundable_overpayment` counts neither penalties nor what an early payoff wrote off as part of what a loan cost: any
  loan, paid ones included, shows an overpayment exactly when its penalties exceed its balance, rebate and absorbed
  interest (`ShowsOverpaymentIff`), so a borrower who pays the penalty is shown it as refundable (`PaidPenaltyRefundable`).
- A duplicate of a successful STK callback is not "Already processed" but unresolved, and its event ends as a dead
  letter, because the receipt overwrote the checkout id (`DuplicateAfterSuccess`).
- An early payoff that absorbs surplus interest leaves the integrity check's equation off by that surplus; the check does
  not look at paid loans, so no reachable book is listed (`PaymentKeepsExpectation`, `ReachableBookHealthy`).

## Model

| member | source | states |
|---|---|---|
| `Money.RoundHalfUp` | backend/app/core/money.py:23-25 | ROUND_HALF_UP is the nearest cent, with ties away from zero |
| `Money.RoundHalfUpUnique` | backend/app/core/money.py:23-25 | nothing else satisfies those bounds, so they determine the rounding |
| `Money.SplitIsNearest` | backend/app/core/money.py:28-43 | the interest part is the nearest cent to amount * rate / (100 + rate) and the principal part the rest |
| `Money.RoundedSharesDrift` | backend/app/routers/accounting.py:192-201 | n rounded shares together stay within n half-cents of the exact share of their total |
| `Money.InterestSplitDrift` | backend/app/core/money.py:28-43 | n interest splits differ from the split of the sum by at most (n+1)/2 cents, for any rate, and interest plus principal lose no cent |
| `Money.CapIsLargest` | backend/app/core/money.py:65-79 | the in duplum cap is the largest part of the charge that keeps the accrued total within principal |
| `Money.FoldChargesIsOneCap` | backend/app/core/money.py:54-79 | charging bit by bit equals capping the whole sum once, if and only if the accrued total starts within principal |
| `Money.ChargeOrderIrrelevant` | backend/app/core/money.py:65-79 | neither order nor grouping of the charges matters |
| `Money.FoldPaymentsIsOneReduction` | backend/app/core/money.py:46-51 | repeated reductions equal max(0, balance - sum), and exactly when they do |
| `Loans.TotalDueIsPrincipalPlusInterest` | backend/app/models/lending.py:201-208 | the rounded total due is the principal plus the rounded flat interest, so the two roundings in the code agree |
| `Repayments.OwedPartsSum` | backend/app/services/repayments.py:142-186 | the owed parts are never negative and sum to exactly the outstanding balance, also when unsplit payments left a gap |
| `Repayments.OwedByComponent` | backend/app/services/repayments.py:142-186 | each part by what was booked of it before; where the balance is below principal and interest, interest gives way by its share, then principal, then interest |
| `Repayments.CompletedPeriodsNeverMore` | backend/app/services/repayments.py:72-79 | completed periods never charge more interest than day by day on any day of the term, if and only if the counted periods cover the term |
| `Repayments.WholePeriodsNeverMore` | backend/app/services/disbursement.py:229-231 | for the whole-period terms a payout sets, completed periods never charge more |
| `Repayments.FiveWeeksCountedInMonths` | backend/app/services/repayments.py:225-241 | a five-week term counted in months charges the whole interest on day 30, where day by day charges 30/35 |
| `Repayments.DailyShare` | backend/app/services/repayments.py:244-246 | day by day, one day of the term is earned for each day begun, the first even if repaid at once |
| `Repayments.CompletedShare` | backend/app/services/repayments.py:237-243 | completed periods are the whole periods gone by out of the nearest number of periods in the term, at least one |
| `Repayments.PayoffWithin` | backend/app/services/repayments.py:249-288 | an early payoff is within the balance, which is exactly payoff plus interest written off plus surplus interest absorbed |
| `Repayments.EarlyPayoffChargesEarned` | backend/app/services/repayments.py:67-79 | net of what is refunded or absorbed, an early payoff charges exactly the interest earned by that day |
| `Repayments.FillExact` | backend/app/services/repayments.py:198-207 | an amount within what is owed is allocated to the cent, no part beyond what it is owed |
| `Repayments.FillInOrder` | backend/app/services/repayments.py:47-58 | a part is touched only once the parts before it in the tenant's order are paid in full |
| `Repayments.AllocateExact` | backend/app/services/repayments.py:189-207 | every allocation, proportional included, has non-negative components that sum to the amount |
| `Repayments.AppliedIs` | backend/app/services/repayments.py:396-462 | a closed loan takes nothing of a payment, an early one that covers the payoff exactly that, any other as much as is owed, closing exactly when all is paid |
| `Repayments.RowWritten` | backend/app/services/repayments.py:410-448 | one row of what was applied, no part beyond what was owed of it, in the tenant's order, or split by the rate where that is proportional |
| `Repayments.PaymentEffect` | backend/app/services/repayments.py:367-508 | applied plus excess is the payment, the row written is sound, the balance never rises, the loan is paid exactly at zero, and nothing else changes |
| `Repayments.PaymentKeepsExpectation` | backend/app/services/repayments.py:410-462 | balance and expected balance move together, except by the surplus interest an early payoff absorbs |
| `LoanLifecycle.ReachableInv` | backend/app/routers/access.py:687-698 | in every run from an application the open balance is total due + fees + penalties - repaid - rebate exactly, with sound rows and no charge before payout |
| `LoanLifecycle.StepKeepsInv` | backend/app/routers/lending.py:407-451 | each single step keeps that invariant |
| `LoanLifecycle.PaidOwesNothing` | backend/app/routers/lending.py:398-400 | no run writes a debt off by status: a paid loan has balance zero |
| `LoanLifecycle.PenaltyIs` | backend/app/routers/notifications.py:18-39 | the penalty is that percent of the principal to the nearest cent, or the headroom of the principal above flat interest if that is less, whatever the balance |
| `LoanLifecycle.PenaltyUnique` | backend/app/routers/notifications.py:18-39 | which is only one amount |
| `LoanLifecycle.DecisionIs` | backend/app/routers/approvals.py:64-124 | only an approver decides, only before approval, approves only within the limit, and passes the loan up beyond it |
| `LoanLifecycle.TransitionIs` | backend/app/routers/lending.py:389-431 | the moves that can be made by hand, and the error of those that must go through approval, disbursement or payment |
| `LoanLifecycle.PayoutIs` | backend/app/services/disbursement.py:126-263 | a payout takes an approved loan, starts its term and debt when paid, and gives it back when failed |
| `LoanLifecycle.InDuplumHolds` | backend/app/routers/notifications.py:18-39 | in every run, changes of the penalty rate included, flat interest plus penalties stay within principal if and only if flat interest does |
| `LoanLifecycle.ChargedAtMostOnce` | backend/app/routers/notifications.py:87-92 | over every interleaving of decisions, payouts, transitions, sweeps and payments the penalty changes at most once |
| `LoanLifecycle.JobsByLateness` | backend/app/routers/notifications.py:78-109 | what one run of the jobs makes of an active loan, by days late against the grace period, with the penalty it adds by principal, interest and rate |
| `LoanLifecycle.JobsElsewhere` | backend/app/routers/notifications.py:78-109 | of any other loan they only default an overdue one past the grace period |
| `LoanLifecycle.MissedBatchesCatchUp` | backend/app/routers/notifications.py:112-123 | runs on any ascending days leave a loan as one run on the last day would; the same day twice is once |
| `LoanLifecycle.CatchUpIffGraceNonNegative` | backend/app/routers/notifications.py:98-109 | that holds for every loan and list of days if and only if the grace period is not negative |
| `LoanLifecycle.NegativeGraceSkipsPenalty` | backend/app/routers/notifications.py:98-109 | for every negative grace period, a loan and two days on which the penalty depends on a missed batch |
| `LoanBook.Loan.Decide` | backend/app/routers/approvals.py:64-124 | the decision's new state and error; over the limit the escalation is kept although it fails |
| `LoanBook.Loan.TransitionTo` | backend/app/routers/lending.py:415-431 | the transition's new state, or its error with nothing changed |
| `LoanBook.Loan.AccrueOverduePenalty` | backend/app/routers/notifications.py:18-39 | adds the capped one-time penalty to balance and penalties and returns it |
| `LoanBook.Loan.Pay` | backend/app/services/repayments.py:396-508 | the loan, applied amount, excess and interest refund are those of one application of a payment |
| `LoanBook.RunRepaymentReminders` | backend/app/routers/notifications.py:66-75 | reminds exactly the active loans with a balance due within three days, and changes none |
| `LoanBook.RemindedOnFourDays` | backend/app/routers/notifications.py:66-75 | an active loan with a balance is due for a reminder on its due date and the three days before, and no other |
| `LoanBook.RunOverdueAlerts` | backend/app/routers/notifications.py:78-95 | sweeps every loan of the book; alerts, flips and penalty total are those of the loans before the sweep |
| `LoanBook.RunDefaulting` | backend/app/routers/notifications.py:98-109 | defaults exactly the loans past the grace window and counts them |
| `LoanBook.RunTenantJobs` | backend/app/routers/notifications.py:112-123 | the jobs in sequence leave each loan as one sweep and one defaulting would, and return how many were reminded, alerted, flipped and defaulted |
| `LoanBook.BookCatchesUp` | backend/app/routers/notifications.py:112-123 | every loan of a book ends a series of nightly runs as one run on the last day would leave it |
| `LoanBook.IntegrityCheck` | backend/app/routers/access.py:682-711 | lists exactly the open loans more than KES 1 off, and counts negative balances |
| `LoanBook.RunBookKeepsInv` | backend/app/routers/access.py:687-698 | every loan's invariant holds over any run of book-wide and single-loan steps |
| `LoanBook.ReachableBookHealthy` | backend/app/routers/access.py:687-707 | no book reached from applications has a mismatch or a negative balance |
| `GeneralLedger.LoanFeeInfo` | backend/app/routers/accounting.py:158-171 | looking a loan up seeds its running fee total so that it equals the naive count of every earlier fee |
| `GeneralLedger.BookRepayment` | backend/app/routers/accounting.py:173-201 | one turn of the loop with its dictionaries books what looking at every earlier row again would |
| `GeneralLedger.RepaymentPassLines` | backend/app/routers/accounting.py:145-201 | the incremental pass equals the quadratic definition over the ordered rows |
| `GeneralLedger.CollectRefundSent` | backend/app/routers/accounting.py:223-232 | an entry is there exactly if it has a successful refund, with the amount of the last one |
| `GeneralLedger.SuspensePassLines` | backend/app/routers/accounting.py:233-251 | receipts and resolutions booked in the window, each by its own date |
| `GeneralLedger.BuildGlLines` | backend/app/routers/accounting.py:89-254 | the four passes, stably sorted by date and account |
| `GeneralLedger.GlExport` | backend/app/routers/accounting.py:269-297 | fails exactly for a reversed window; totals and the balanced flag are those of the lines |
| `StableSort.SortStable` | backend/app/routers/accounting.py:253 | lines level in date and account keep the order they were added in |
| `StableSort.StableArrangementUnique` | backend/app/routers/accounting.py:253 | sorted and stable leaves only one sequence, so any stable sort gives it |
| `LedgerBalance.DisbursementBalanced` | backend/app/routers/accounting.py:126-143 | a payout's entry balances if and only if its deducted excise is not negative |
| `LedgerBalance.RepaymentBalanced` | backend/app/routers/accounting.py:173-201 | a repayment's entry balances if and only if its components (or, unsplit, its amount) are not negative |
| `LedgerBalance.SuspenseBalanced` | backend/app/routers/accounting.py:233-251 | a suspense entry balances if and only if a refund resolved in the window sent at least the entry's amount |
| `LedgerBalance.ExportBalanced` | backend/app/routers/accounting.py:89-100 | total debits equal total credits in every export over sound rows, before and after the sort |
| `LedgerAccounts.ExportMovesAccounts` | backend/app/routers/accounting.py:93-99 | loans, cash, suspense and interest move exactly as the stored rows of the window say, column by column |
| `LedgerAccounts.PayoutNet` | backend/app/routers/accounting.py:117-143 | a payout moves principal to the loan, the payout out of cash, and excise and the fee kept to their own accounts |
| `LedgerAccounts.TxnLinesStamped` | backend/app/routers/accounting.py:126-143 | every line of a payout or loan refund carries that row's date and reference |
| `LedgerAccounts.RepaymentLinesStamped` | backend/app/routers/accounting.py:173-201 | likewise every line of a repayment |
| `LedgerAccounts.SuspenseLinesStamped` | backend/app/routers/accounting.py:233-251 | a receipt carries the day an entry came in, its resolution the day it left |
| `LedgerAccounts.RepaymentsOrdered` | backend/app/routers/accounting.py:150-154 | repayments are booked by time paid and then id |
| `LedgerAccounts.ExportSorted` | backend/app/routers/accounting.py:253 | the export comes by date and account number |
| `LedgerAccounts.PassesInOrder` | backend/app/routers/accounting.py:253 | lines level in both come as the four passes added them |
| `LedgerSplit.SplitTelescopes` | backend/app/routers/accounting.py:155-201 | over any run of repayments a loan's fee income plus excise is min(F_end,B) - min(F_start,B), and all above B is penalty income |
| `LedgerSplit.SplitByTerms` | backend/app/routers/accounting.py:155-201 | the same with the loan row's fees_in_balance, and 0 of it for an unknown loan |
| `LedgerSplit.ExciseByTerms` | backend/app/routers/accounting.py:162-199 | by the loan row's columns, excise is excise_duty in total_fees + excise_duty of each payment's product part, rounded, within half a cent per payment |
| `LedgerSplit.NoShareNoExcise` | backend/app/routers/accounting.py:162-165 | and nothing for a loan that is unknown or not priced |
| `LedgerSplit.PaidAtOnce` | backend/app/routers/accounting.py:162-201 | a loan that pays all its priced fees at once books exactly its excise and its fees |
| `LedgerSplit.ExciseDrift` | backend/app/routers/accounting.py:192-199 | excise credited is within half a cent per fee payment of the share of those product fees |
| `LedgerWindows.SeedContinues` | backend/app/routers/accounting.py:158-171 | the lazily seeded total of a later window equals where the earlier window's loop left it, if no fee went unbooked |
| `LedgerWindows.WindowsCompose` | backend/app/routers/accounting.py:89-254 | exporting [a,b] then [b+1,c] gives the very sequence of exporting [a,c] |
| `LedgerWindows.FeeAfterUnbookedBreaks` | backend/app/routers/accounting.py:179-181 | for any unbooked fee followed by a booked one of the same loan, windows and terms for which exports do not compose |
| `LedgerWindows.ComposesIffNoFeeAfterUnbooked` | backend/app/routers/accounting.py:158-181 | every adjacent pair of windows composes, whatever else the books hold, if and only if no fee is booked on a later day than an unbooked fee of its loan |
| `LedgerOfLoans.PaymentsWriteSoundRows` | backend/app/services/repayments.py:436-448 | rows that payments of reachable loans wrote always compose and balance in the ledger |
| `LedgerOfRefunds.RefundsCoverEntries` | backend/app/services/disbursement.py:323-326 | over any run of requests and decisions, a suspense refund that was sent covers its entry, as the ledger needs to balance it |
| `StkDelivery.CreditedAtMostOnce` | backend/app/routers/payments.py:480-511 | under any pushes, deliveries, duplicates, retries and failures a transaction credits its loan at most once, and only if it succeeded |
| `StkDelivery.SuccessCredits` | backend/app/routers/payments.py:561-586 | a success settles the push under its receipt and, if loan, amount and receipt allow, adds one credit, repays the loan with what one payment takes, and uses up the receipt |
| `StkDelivery.OtherCallbacks` | backend/app/routers/payments.py:544-571 | any other code fails the push; a settled push or a blank id changes nothing; an unknown id is unresolved |
| `StkDelivery.CreditedExactlyOnceIff` | backend/app/routers/payments.py:561-586 | over any run a push that succeeded has exactly one credit if and only if it could be credited at that step |
| `StkDelivery.EventMarked` | backend/app/routers/payments.py:493-511 | an event is processed if nothing broke down and its id was known, and otherwise has one more failed attempt |
| `StkDelivery.RunKeepsCredits` | backend/app/routers/payments.py:561-586 | every credit belongs to its own transaction, on result code 0, under the receipt the transaction now carries |
| `StkDelivery.LeavesAtMostOnce` | backend/app/routers/payments.py:557-558 | a transaction leaves pending/processing at most once |
| `StkDelivery.RepaidIsCredited` | backend/app/routers/payments.py:578-586 | where callbacks are the only payments, what a loan has repaid is exactly the sum of its credits |
| `StkDelivery.DuplicateAfterSuccess` | backend/app/routers/payments.py:552-573 | a second delivery after a success is unresolved if and only if the receipt differs from the checkout id and no other push uses it |
| `StkDelivery.DuplicatesStayUnresolved` | backend/app/routers/payments.py:552-556 | once overwritten and not reused, the id stays unknown over any run, so no later duplicate is applied |
| `StkDelivery.RetriesBounded` | backend/app/services/webhook_security.py:285-304 | an event is dead exactly when it has failed max-attempts times |
| `StkSession.Session.ProcessStkCallback` | backend/app/routers/payments.py:544-587 | commits exactly the processed state, or leaves the committed one untouched when it raises |
| `StkSession.Session.RunProcessor` | backend/app/routers/payments.py:749-760 | marks the event and rolls back exactly as one attempt of the step machine |
| `StkSession.Session.IngestAndProcess` | backend/app/routers/payments.py:493-511 | persists the event and attempts it once |
| `StkSession.Session.ReprocessEvent` | backend/app/routers/payments.py:740-760 | attempts an event that is still to be retried, and no other |
| `MakerChecker.RunKeepsInv` | backend/app/routers/approvals.py:211-271 | in every run an action is awaiting exactly while no decision of it took effect, approved exactly if an approval was accepted, never checked by its maker, and not taken up after a decision took effect |
| `SuspenseEntries.RequestTaken` | backend/app/routers/payments.py:134-171 | a refund request is taken exactly for a positive amount within what is overpaid, not sent and not asked for |
| `SuspenseEntries.EntryRequested` | backend/app/routers/payments.py:941-971 | an entry's refund is requested, and the entry held, exactly if it is open |
| `SuspenseEntries.RejectionReleases` | backend/app/routers/approvals.py:233-241 | a rejection marks the action, gives a parked entry back as open, and changes nothing else |
| `SuspenseEntries.ApprovalSends` | backend/app/routers/approvals.py:243-263 | an approval goes out exactly if it is permitted, not the maker's, and still covered; it saves the refund and claims the entry |
| `SuspenseEntries.AnswerSaved` | backend/app/services/disbursement.py:333-356 | only an acceptance approves the action, only a refusal fails the refund and gives its entry back |
| `SuspenseEntries.SettlementSaved` | backend/app/services/disbursement.py:379-404 | a settlement completes or fails an unsettled refund, and closes its entry or gives it back |
| `SuspenseEntries.ParkedIff` | backend/app/services/payment_approvals.py:157-177 | with no late answer, over every run an entry is parked exactly while an action on it awaits that was requested after its refund was last taken up |
| `SuspenseEntries.RefusedWhileAwaiting` | backend/app/services/disbursement.py:366-377 | a run in which an action still awaits although its entry is open again |
| `Contention.DecidedOnceIff` | backend/app/routers/approvals.py:211-216 | from any reachable state, whatever happens next but taking it up again, an action is decided at most once if and only if at most one decision of it took effect or is still out |
| `Contention.SecondContenderIff` | backend/app/routers/approvals.py:211-216 | a second such decision arises exactly at a step that passes all checks and takes the action up while an approval of it is out |
| `Contention.RunsOnceIff` | backend/app/services/disbursement.py:328-356 | likewise its effect runs at most once if and only if at most one approval of it was accepted, is out, or is left open with a refund not failed |
| `Contention.SecondOutstandingIff` | backend/app/routers/approvals.py:243-263 | a second such approval arises exactly when one begins while another is accepted, out or left open |
| `Contention.ApprovedAloneRunsOnce` | backend/app/routers/approvals.py:243-271 | with that guard the effect would run at most once in every run, and exactly as decided unless an approval is left open |
| `MakerChecker.DecidedOnceIffNoOverlap` | backend/app/routers/approvals.py:211-216 | two decisions of an action that took effect always overlapped in time: it is decided at most once if and only if none did |
| `MakerChecker.DecidedChangesOnlyByOverlap` | backend/app/routers/approvals.py:219-268 | a decided action changes only when an approval begun before is accepted after, and never has its maker as checker |
| `MakerChecker.OneAtATimeDecidesOnce` | backend/app/routers/approvals.py:211-216 | were no action taken up while an approval of it is out, each would be decided once, and run as decided unless an approval is left open with a refund not failed |
| `MakerChecker.RanAsDecidedIff` | backend/app/routers/approvals.py:243-271 | counting every approval accepted or with a refund not failed, the effect ran once if approved and never otherwise, if and only if no approval was left open so and no two accepted ones overlapped |
| `MakerChecker.ApprovedTwiceAtOnce` | backend/app/services/disbursement.py:328-356 | a run with nothing left open in which one refund action is approved by two checkers and sent twice |
| `MakerChecker.UnansweredThenPaid` | backend/app/services/disbursement.py:278-306 | a run in which an approval is never answered, its refund is settled as paid, and a second approval sent it again |
| `MakerChecker.RejectedThenPaid` | backend/app/services/disbursement.py:278-306 | a run in which a suspense refund is rejected while it is out and then settled as paid |
| `MakerChecker.RejectedThenApproved` | backend/app/routers/approvals.py:233-268 | a run in which an action is rejected while its refund is out, and then approved |
| `MakerChecker.UnknownThenApproved` | backend/app/services/disbursement.py:344-349 | a run in which one approved refund action sent twice |
| `MakerChecker.UnknownThenRejected` | backend/app/services/disbursement.py:344-349 | a run in which a rejected refund action had been sent |
| `RefundBounds.RefundsNeverExceed` | backend/app/services/disbursement.py:410-438 | with no late answer, refunds of a loan's overpayment never total more than it rounded up, each suspense entry has at most one refund that did not fail, and all sent on the loan is within both |
| `RefundBounds.WithinCeilingIff` | backend/app/services/disbursement.py:432-438 | all refunds sent on a loan stay within its overpayment rounded up in every run if and only if no entry is matched to it and, if anything is overpaid, no answer comes late |
| `RefundBounds.WithinIffWholeShillings` | backend/app/services/disbursement.py:323-326 | they stay within the overpayment itself exactly when it is besides a whole number of shillings or none |
| `RefundBounds.EntryRefundedOnTop` | backend/app/services/payment_approvals.py:157-177 | for any matched entry, a run that sends its refund on top of the whole overpayment |
| `RefundBounds.LateAnswerSendsTwice` | backend/app/services/disbursement.py:278-306 | for any overpayment, a run that settles a refund as not paid before its answer and so sends it twice |
| `RefundBounds.SuspenseRefundRunsOnce` | backend/app/services/payment_approvals.py:354-396 | with no late answer a suspense refund's effect runs at most once, whoever else takes it up, and exactly as decided if and only if no approval of it is left open with a refund not failed |
| `RefundBounds.RequestsStayWithin` | backend/app/routers/payments.py:134-158 | after a request, pending and sent refunds together are within the overpayment |
| `RefundBounds.RequestsStayReserved` | backend/app/routers/payments.py:134-158 | over a run of decisions in turn, pending and sent requests stay within the overpayment, a shilling per refund, and what was sent without being accepted |
| `RefundBounds.RequestsStayReservedExactly` | backend/app/routers/payments.py:134-158 | once every approval was accepted, that is the overpayment and a shilling per refund sent |
| `Overpayments.OverpaidIs` | backend/app/services/disbursement.py:422-438 | a loan that was paid out shows exactly its penalties less balance, rebate and absorbed interest as overpaid |
| `Overpayments.ShowsOverpaymentIff` | backend/app/services/disbursement.py:422-438 | a reachable loan in any state shows an overpayment if and only if its penalties exceed balance, rebate and absorbed interest |
| `Overpayments.PaidLoanShowsOverpayment` | backend/app/services/disbursement.py:422-438 | a paid loan does if and only if its penalties exceed what was written off and absorbed |
| `Overpayments.OpenLoanShowsOverpayment` | backend/app/services/disbursement.py:422-438 | an open loan has absorbed nothing, and does if and only if its penalties exceed balance and rebate |
| `Overpayments.PaidPenaltyRefundable` | backend/app/services/disbursement.py:422-438 | a run in which a loan paid in full with its penalty shows that penalty as overpaid |
| `ApprovalDesk.Office.RefundableOverpayment` | backend/app/services/disbursement.py:410-438 | what is left of the overpayment after all refunds sent on the loan and, for a request, those awaiting approval |
| `ApprovalDesk.Office.RequestRefund` | backend/app/routers/payments.py:134-171 | parks exactly the requested refund, or fails and changes nothing |
| `ApprovalDesk.Office.RequestSuspenseRefund` | backend/app/routers/payments.py:941-971 | parks a refund of the entry's own amount and loan and holds the entry, or fails if it is not open |
| `ApprovalDesk.Office.RejectAction` | backend/app/routers/approvals.py:215-241 | rejects the action and releases its entry, or fails and changes nothing |
| `ApprovalDesk.Office.BeginApproval` | backend/app/services/disbursement.py:312-332 | an approval up to the commit of its intent: the refund saved as sent, the entry claimed, the action still awaiting |
| `ApprovalDesk.Office.FinishApproval` | backend/app/services/disbursement.py:333-356 | the rest of it: the refund's, entry's and action's new statuses by the answer, whatever they are by then |
| `ApprovalDesk.Office.ApproveAction` | backend/app/routers/approvals.py:215-271 | with nobody in between, the two steps in turn; it succeeds exactly when the provider accepts |
| `ApprovalDesk.Office.Settle` | backend/app/services/disbursement.py:379-404 | settles a refund not settled yet, and closes or reopens its entry |
| `Payouts.PaidOutOnce` | backend/app/services/disbursement.py:108-200 | in any run with no late answer a loan has at most one payout that did not fail, however many requests are made at once |
| `Payouts.DisburseIs` | backend/app/services/disbursement.py:128-160 | a payout is begun exactly for an approved loan with none unsettled, which it takes |
| `Payouts.ReplyIs` | backend/app/services/disbursement.py:162-183 | a refusal fails the payout and gives the loan back as approved; any other answer puts it on its way |
| `Payouts.ResultIs` | backend/app/services/disbursement.py:203-254 | a result settles an unsettled payout and makes its loan active or approved again |
| `Payouts.NeverPaidTwiceIff` | backend/app/services/disbursement.py:111-112 | that holds of every run if and only if no answer comes late |
| `Payouts.LateAnswerPaysTwice` | backend/app/services/disbursement.py:278-306 | for any loan, a run that settles a payout as not paid before its answer and so pays it twice |
| `AmlScan.FindBurst` | backend/app/services/aml.py:53-58 | finds whether k consecutive sorted payments lie within the span |
| `AmlScan.BurstIffClustered` | backend/app/services/aml.py:49-68 | some k consecutive sorted payments lie within the span if and only if some k distinct payments of the unsorted group lie pairwise within it |
| `AmlScan.VelocityIffSomewhere` | backend/app/services/aml.py:70-77 | windows starting at a payment find a sum above the limit if and only if some window anywhere has one |
| `AmlScan.CheckGroup` | backend/app/services/aml.py:44-77 | the three checks decide exactly the three rules on the group in any order |
| `AmlScan.StructuringIs` | backend/app/services/aml.py:49-58 | three equal payments are structuring from KES 8,000 to below 10,000 within 48 hours, both ends as in the code |
| `AmlScan.RapidSmallIs` | backend/app/services/aml.py:60-68 | five equal payments are rapid small repayments below KES 2,000 within 24 hours |
| `AmlScan.VelocityIs` | backend/app/services/aml.py:70-77 | two payments are velocity if they exceed KES 100,000 within 24 hours, or one alone does |
| `AmlScan.FlagNames` | backend/app/services/aml.py:44-77 | each rule's severity, and the borrower of the earliest payment |
| `AmlScan.AmlFlags.AddFlag` | backend/app/services/aml.py:34-42 | adds the flag unless the loan has one of its type |
| `AmlScan.AmlFlags.RunAmlScan` | backend/app/services/aml.py:22-80 | a flag is there after the scan exactly if it was before or is deserved, none is doubled, each new one names borrower and severity |
| `AmlScan.AmlFlags.ScanTwice` | backend/app/services/aml.py:23 | a rescan of unchanged data creates no flag |
| `LoginLimiter.RateLimiter.RateLimitLogin` | backend/app/routers/auth.py:57-73 | the deque decides exactly as counting accepted hits of the closed last 60 s in the full history; a lone retry is accepted exactly from Retry-After on |
| `LoginLimiter.AdmissibleIffSpaced` | backend/app/routers/auth.py:35-45 | the histories it can accept are exactly those whose (i+10)-th hit is more than 60 s after the i-th |
| `LoginLimiter.RetryAfterExact` | backend/app/routers/auth.py:66-72 | a wait of w whole seconds is enough if and only if w is at least the returned Retry-After |
| `LoginLimiter.Prune` | backend/app/routers/auth.py:63-65 | popping keeps the deque the end of the history, dropping only hits before the window |
| `AccountLockout.Account.TryLogin` | backend/app/routers/auth.py:101-135 | the attempt's outcome and the account's new counter and lock |
| `AccountLockout.LoginIs` | backend/app/routers/auth.py:101-135 | exactly when each outcome comes, and what it does to counter and lock: a success clears both, a disabled account nothing |
| `AccountLockout.FiveLock` | backend/app/routers/auth.py:111-135 | after a success four wrong passwords lock nothing and the fifth locks for 15 minutes |
| `AccountLockout.FailuresSpaced` | backend/app/routers/auth.py:111-123 | from the locking failure on, each further checked failure waits out a whole lockout |
| `AccountLockout.WrongPasswordsBounded` | backend/app/routers/auth.py:80-135 | without a success, wrong passwords checked within T of the first number at most 5 + T / 15 min |
| `AccountLockout.BoundReached` | backend/app/routers/auth.py:80-135 | and that many can be checked |
| `CustomerNumbers.LuhnCheckDigit` | backend/app/core/customer_number.py:31-43 | the loop computes the Luhn check digit of digits of any length |
| `CustomerNumbers.ValidIffSumDivisible` | backend/app/core/customer_number.py:31-51 | a number is valid exactly if its weighted digit sum, the check digit undoubled, is a multiple of ten |
| `CustomerNumbers.OneDigitDetected` | backend/app/core/customer_number.py:11-13 | changing any one digit of a valid number makes it invalid |
| `CustomerNumbers.AdjacentSwapDetected` | backend/app/core/customer_number.py:11-13 | swapping adjacent digits keeps it valid if and only if they are equal or a 0 and a 9 |
| `CustomerNumbers.SeparatorsIgnored` | backend/app/core/customer_number.py:54-62 | digits typed with spaces and dashes anywhere read as those digits |
| `CustomerNumbers.MistypedRefused` | backend/app/core/customer_number.py:46-62 | a customer number with one wrong digit is refused however it is spaced |
| `CustomerNumbers.ValidIs` | backend/app/core/customer_number.py:46-62 | typed with digits, spaces and dashes, it is valid exactly if the digits are seven and pass the check |
| `CustomerNumbers.OthersRefused` | backend/app/core/customer_number.py:54-62 | any other character makes it invalid |
| `CustomerNumbers.CandidateValid` | backend/app/core/customer_number.py:65-67 | every generated candidate is a valid 7-digit number |
| `CustomerNumbers.CandidatesDiffer` | backend/app/core/customer_number.py:65-67 | different draws give different numbers |
| `CustomerNumbers.GenerateUnique` | backend/app/core/customer_number.py:70-80 | returns the first free candidate of at most fifty, and fails exactly when all fifty are taken |
| `AccountNumbers.AccountNumberInjective` | backend/app/routers/lending.py:367 | within a year and tenant, different sequence numbers give different account numbers |
| `AccountNumbers.TenantLoans.ApplyForLoan` | backend/app/routers/lending.py:365-387 | stops within count + 1 probes at the first free number from count + 1 on, and takes it |
| `AccountNumbers.Probe` | backend/app/routers/lending.py:365-372 | where the probe stops is free and everything before it is taken |
| `AccountNumbers.ProbesBounded` | backend/app/routers/lending.py:365-372 | no more than count + 1 numbers are looked at |
| `AccountNumbers.NumbersStayDistinct` | backend/app/routers/lending.py:360-364 | over any run of applications and removals, in any years, numbers stay unique |
| `AccountNumbers.ReusedIff` | backend/app/routers/lending.py:360-372 | after any run in any years, a new loan takes a number issued before if and only if some number above the count is on no row and it and all between were issued |
| `AccountNumbers.ReusedWithinYearIff` | backend/app/routers/lending.py:360-372 | in runs of one year, if and only if a number above the count was issued and removed |
| `AccountNumbers.NewestNumberReturns` | backend/app/routers/lending.py:360-372 | whatever the register, removing the newest loan gives its number to the next |
| `MigrationRunner.FilesSound` | backend/scripts/run_migrations.py:56-60 | the files come sorted by number and name, each once |
| `MigrationRunner.PrefixIs` | backend/scripts/run_migrations.py:52-60 | a file's number is the one its name begins with, 1000000 without one |
| `MigrationRunner.ListingOrderIrrelevant` | backend/scripts/run_migrations.py:113 | their order is total on names, so however the directory lists them they are taken in the same order |
| `MigrationRunner.Runner.Run` | backend/scripts/run_migrations.py:113-211 | skip, baseline, dry-run, apply and fail leave the tracking table, counts and exit code of one run |
| `MigrationRunner.OneRunIs` | backend/scripts/run_migrations.py:157-211 | a run executes, or lists, in order the files neither recorded nor within the baseline up to the first that fails, records all it passed, counts them, and fails exactly if one failed or there is none |
| `MigrationRunner.DryRunPredicts` | backend/scripts/run_migrations.py:181-184 | a dry run changes nothing and lists exactly what a failure-free run would execute |
| `MigrationRunner.SeriesIsPrefix` | backend/scripts/run_migrations.py:5-21 | over any series of runs the recorded files are a prefix of the numeric order and none is executed twice; without baselines the executed ones are that prefix in order |
| `MigrationRunner.SmallerNumbersFirst` | backend/scripts/run_migrations.py:56-60 | a recorded file is never ahead of one with a smaller number |
| `Decimals.NumeralInjective` | backend/app/routers/lending.py:367 | different sequence numbers print differently |

## Left out

- The SMS, audit, activity and observability calls: they change nothing modelled here. The edit lock on a borrower and its log are also left out.
- Roles, permissions, data scopes and per-tenant approver settings: a decision takes a flag saying whether the checker may decide; the destination phone of a refund is not modelled.
- Tenants: each model is one tenant's rows, so filters on the tenant id are not modelled.
- C2B, B2C and reversal callbacks as deliveries of their own: only their effect on a loan or a refund is a step.
- Concurrent sessions within one transaction: a row-locked request is atomic up to its commit.
- Disbursements, manual payments, suspense allocations and reversals as actions of their own: in `MakerChecker` they are one kind of action that is begun and answered, without the checks and locks of their own that refuse a second run (those of a disbursement are in `Payouts`); an allocation or reversal moves its entry as it likes while no refund holds it.
- Payouts.PaidOutOnce: is about values; `execute_disbursement` as a method that updates the rows in place is not modelled.
- A simulated provider's immediate settlement of a refund: it is a settling step right after the answer.
- The account name and the CSV rendering of a ledger line; a description is kept as its kind and loan, not as text.
- Pricing of a quote (`pricing.py`) and its annual rate: the agreed fees enter as parameters and stored snapshots.
- Non-ASCII digits and whitespace in a typed customer number, which Python's `\d` and `strip()` also accept.
- Failures of the migration runner outside a file's own transaction, and files added between runs.
- The randomness of generated receipts, references and candidates: each is a parameter.
- StkSession.Session.ProcessStkCallback: a crash of the process that leaves an event merely received is not modelled, because nothing retries such an event.
- RefundBounds.RequestsStayReserved: assumes that no action is taken up while an approval of it is out and that no answer comes late, because a refund sent twice takes what other pending requests had reserved.
- AccountLockout.WrongPasswordsBounded: an administrator resetting the counter or the lock in between is not modelled.
