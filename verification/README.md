# Verified model of the money ledger

A Dafny model of how the application keeps money consistent, with proofs for every run, input and interleaving.
Money is integer cents and dates are valid days of one Gregorian calendar. A repository method is one database
transaction: it commits or leaves every table as it was.

The model has two layers. Specification modules say what each request does to the tables as a value, and prove
laws about all runs of requests. Store classes hold the tables as mutable fields and follow the source step by
step; each method is proved to end in the state its specification gives, or to roll back. The modules named
`...Meaning` and `LedgerEdits` say what those specifications accept, store and move in the figures of the request and
the columns of the tables alone, without the functions that compute it.

| part | modules |
|---|---|
| calendar | Calendar |
| amortization and extra payments | Amortization, ExtraPayment, LoanSimulation |
| account ledger | Ledger, LedgerLaws, LedgerMeaning, LedgerEdits, AccountMeaning, ManagedLaws, LedgerStore |
| loans | LoanLedger, LoanLaws, LoanRuns, LoanMeaning, LoanTheorems, LoanUndo, LoanStore |
| savings goals and yields | YieldShares, Savings, SavingsLaws, SavingsMeaning, YieldLaws, YieldMeaning, YieldExamples, SavedMoney, SavingsStore |
| idempotent creation | Receipts, ReceiptMeaning, ReceiptExamples, ReceiptStore |
| row locks | Footprints, RowLocks, LockMeaning |
| recurring expenses and their forecast | Recurring, RecurringBatch, RecurringMeaning, RecurringStore, Forecast |
| budget cycles | BudgetCycles |
| statement matching | StatementMatching, StatementMeaning |
| statement parsing | StatementText, TextMeaning, MovementParser, MovementPrinter |
| agent event stream | Utf8, SseStream, SseWriter, StreamMeaning, SseCodec |

`dafny verify dfyconfig.toml` checks the whole project.

## Where the code and its documents differ

The model follows the code.

- A schedule does not always close, as `backend/internal/loans/engine.go:45-46` says: it closes exactly when the
  balance closes within the term (`Amortization.ScheduleEndsAtZero`).
- Rows due on the day of an extra payment are not assumed paid: the test at `backend/internal/loans/engine.go:113`
  is strictly before, although the comment at line 91 says "on or before".
- An anchor on 1 January of year 1 is taken for a missing start date, and the rest of the schedule is dropped
  (`ExtraPayment.UndatedRestIsDropped`); a negative extra is recorded as applied without being applied. Conservation
  is proved exactly outside these two cases (`ExtraPayment.ExtraPaymentConserves`), each shown by an input
  (`ExtraPayment.UnacceptedExtrasAreNotConserved`). The routes refuse both, so it holds without condition for what they
  accept (`ExtraPayment.AcceptedExtraConserves`).
- Undoing an event that closed the loan early restarts the schedule in the month of the event
  (`backend/internal/store/loans.go:767-772`), so the old schedule comes back only if that is the month it began in
  (`LoanUndo.UndoIsInverse`, `LoanUndo.ClosingExtraIsNotUndone`).
- A yield reconciliation cannot be undone right away if the account was over-assigned before a rise
  (`YieldLaws.UndoRestores`, `YieldExamples.OverspentIsNotUndone`).
- A key whose row was deleted is free again in the key column, and a transfer into a goal takes no receipt. So such a
  transfer can store a second row under the key of a create (`ReceiptExamples.KeyStoresTwoRows`), and transfers whose
  goals and then themselves are deleted any number of rows (`ReceiptExamples.NothingBoundsTheRows`), although a key is
  meant to book money once (`docs/backend/03-api-roadmap.md:262-264`). `Receipts.RowsUnderKey` says what can happen.
- The document on balance automation says that existing transactions are not replayed when tracking begins. An edit of a row
  recorded before its account was tracked finds no entry to take back and charges the new amount in full
  (`LedgerEdits.OlderRowIsChargedInFull`); `LedgerEdits.EditMovesTheDifference` says exactly when an edit moves the
  difference.
- Monthly budget windows are anchored months in `backend/internal/agent/tools_read.go` and calendar months in
  `frontend/src/lib/budget-period.ts`; they agree only for anchors on the first (`BudgetCycles.MonthlyMatchesOnTheFirst`).

## Model

| member | source | states |
|---|---|---|
| Calendar.OrdinalOrder | backend/internal/agent/tools_read.go:599-616 | the day number used for windows and distances settles both the order and the equality of dates |
| Calendar.LaterMonthIsLater | backend/internal/loans/engine.go:176-190 | clamped month addition is strictly monotone: a later month gives a later date however either day is clamped |
| Calendar.AddDays | frontend/src/lib/cash-flow-forecast.ts:80-85 | adding n days moves the day number by exactly n, backwards too |
| Calendar.ClampedToLastDay | backend/internal/loans/engine.go:176-190 | clamping keeps the day or takes the last day of the month |
| Calendar.RolloverMeans | backend/internal/store/loans.go:767-772 | adding months without clamping lands as many days after the first of the target month as the date is after the first of its own |
| Amortization.SumInterest | backend/internal/loans/engine.go:192-198 | the summing loop returns the total interest of the rows |
| Amortization.BuildSchedule | backend/internal/loans/engine.go:47-77 | the engine's loop returns the recursively defined schedule, and nothing for terms that fail validation |
| Amortization.StepMonotone | backend/internal/loans/engine.go:53-63 | one rounded installment, residual rule included, never turns a larger balance into a smaller one |
| Amortization.StepRepays | backend/internal/loans/engine.go:31-41 | a payment above the first interest repays principal in every installment, so balances strictly fall and the payment stays above the interest |
| Amortization.StepContracts | backend/internal/loans/engine.go:53-63 | prepaying x cents lowers the balance after the next installment by at least x, or closes it |
| Amortization.ClosesMonotone | backend/internal/loans/engine.go:53-63 | what closes within some months also closes from a smaller balance or within more months |
| Amortization.ScheduleEndsAtZero | backend/internal/loans/engine.go:43-77 | a schedule ends at zero if and only if its balance closes within its term; otherwise it ends above zero |
| Amortization.ClosedScheduleIsStable | backend/internal/store/loans.go:776-780 | once a schedule closes, a longer maximum term gives the same rows |
| Amortization.TailIsSchedule | backend/internal/loans/engine.go:47-77 | from any row on, a schedule is the schedule of the balance it has reached |
| Amortization.RowOfSchedule | backend/internal/loans/engine.go:64-74 | row k is numbered, dated and split exactly as the balance before it demands |
| Amortization.PrincipalConserved | backend/internal/loans/engine.go:47-77 | repaid principal plus the last remaining balance is the original balance |
| Amortization.SmallerBalanceIsCheaper | backend/internal/loans/engine.go:47-77 | a smaller balance takes no more installments and no more interest, on the same dates and numbers |
| Amortization.NoOverflow | backend/internal/loans/engine.go:166-175 | interest is a twelfth of the yearly rate rounded to the nearest cent, and the product it divides fits a signed 64-bit word for every accepted balance and rate |
| Amortization.TermsAreAccepted | backend/internal/loans/engine.go:12-21 | there is a schedule if and only if principal, payment, rate, months, day and start are in their ranges and the payment exceeds the first interest, in figures |
| Amortization.RowsAreDue | backend/internal/loans/engine.go:43-77 | every row in its own columns: numbered and due month by month on the clamped day, interest within half a cent of a twelfth of the rate on the balance before it, principal + interest = total, total = payment before the closing row, which repays exactly the balance, and closing exactly when the payment would leave at most 100 cents |
| ExtraPayment.ApplyExtraPayment | backend/internal/loans/engine.go:94-147 | the splicing loop returns the outcome defined row by row: kept rows, then the rebuilt and renumbered rest |
| ExtraPayment.Renumber | backend/internal/loans/engine.go:141-144 | the loop numbers the rebuilt rows on from the kept ones and changes nothing else |
| ExtraPayment.OutcomeIsPrepaid | backend/internal/loans/engine.go:108-146 | the spliced schedule is the schedule that prepays the extra after the kept rows |
| ExtraPayment.ExtraPaymentNeverCosts | backend/internal/loans/engine.go:149-164 | for every input months saved and interest saved are the true differences and not negative (the clamp never fires), due dates are a prefix of the baseline's and rows are numbered from 1 |
| ExtraPayment.ExtraPaymentConserves | backend/internal/loans/engine.go:94-147 | schedule principal + applied extra + what is still owed = principal, if and only if the payment is prepayable: a condition on the extra and the row it precedes |
| ExtraPayment.LargerExtraSavesMore | backend/internal/loans/engine.go:94-164 | a larger extra on the same date never saves fewer months or less interest |
| ExtraPayment.AcceptedExtraConserves | backend/internal/httpapi/loans.go:187-296 | for every loan and extra the routes accept, schedule principal + applied extra + what is still owed = principal, without condition |
| ExtraPayment.UnacceptedExtrasAreNotConserved | backend/internal/loans/engine.go:94-147 | a concrete negative extra and a concrete extra on a schedule from the first day of the calendar after which they do not add up |
| LoanSimulation.BaselineIsPending | backend/internal/httpapi/loans.go:253-296 | the baseline of a simulation, what the loan still owes over as many months as rows are pending, is the pending rows |
| LoanSimulation.SimulationAddsUp | backend/internal/httpapi/loans.go:253-296 | a simulation on any sound loan conserves what remains, saves the months and interest its rows differ by, never less than none, and keeps the pending due dates |
| ExtraPayment.EarlierExtraSavesMore | backend/internal/loans/engine.go:94-164 | the same extra paid earlier never saves fewer months or less interest, as long as the later one is applied |
| ExtraPayment.ExtraIsApplied | backend/internal/loans/engine.go:94-147 | what an extra payment applies, which rows stay and when the debt ends, by the rows due before its date and what is owed then |
| ExtraPayment.RestIsNotEmpty | backend/internal/loans/engine.go:126-147 | after an extra smaller than the debt some installment is left, and none is added |
| ExtraPayment.RestIsAmortized | backend/internal/loans/engine.go:126-147 | each row after a smaller extra is due in the month it had and amortizes what the extra left, in figures, by the rule of every schedule |
| LedgerLaws.BalancesAlwaysAgree | backend/internal/store/transactions.go:691-765 | from any consistent books, card statements included, after any run of account, transaction, purchase, managed and adjustment requests a tracked debit account holds the sum of its entries, and a tracked card owes its limit when tracking began minus that sum |
| LedgerLaws.EmptyBooksAreConsistent | backend/internal/store/transactions.go:691-765 | books without accounts and rows are consistent whatever statements there are, so such runs can start there |
| LedgerLaws.RunKeeps | backend/internal/store/postgres.go:27-46 | every request, accepted or rolled back, keeps balances, entries and foreign keys consistent |
| LedgerMeaning.CreationMoves | backend/internal/store/balance_automation.go:42-88 | a transaction is accepted exactly when its shape and accounts are; it adds one row and moves each tracked account by what its type means, and no other account |
| LedgerMeaning.TransferConserves | backend/internal/store/balance_automation.go:68-83 | a transfer neither makes nor loses tracked money if and only if both its accounts are tracked or neither is |
| LedgerMeaning.LimitKeepsDebt | backend/internal/store/accounts.go:352-362 | a new credit limit changes what a tracked card can spend and never what it owes |
| LedgerMeaning.ReconciledFigure | backend/internal/store/accounts.go:484-566 | reconciling is accepted exactly for tracked accounts, ends with the figure given, and the ledger moves by exactly the difference |
| LedgerMeaning.TrackingBegins | backend/internal/store/accounts.go:417-482 | tracking begins with the figure given as the account's only entry; a card then owes the rest of its limit |
| LedgerEdits.EditStores | backend/internal/store/transactions.go:494-532 | an accepted edit gives each of the ten columns the patch's value where it has one and keeps it otherwise; no other row changes |
| LedgerEdits.EditMoves | backend/internal/store/transactions.go:189-317 | an accepted edit takes back from every tracked account what the row had recorded there and gives what the new row means; a patch of category, date, description or the end of a statement link moves nothing |
| LedgerEdits.EditMovesTheDifference | backend/internal/store/transactions.go:189-317 | in every reachable state a tracked account moves by what the new row means less what the old one meant if and only if the patch moves nothing, the row has its entry there, or it meant nothing there |
| LedgerEdits.OlderRowIsChargedInFull | backend/internal/store/transactions.go:728-739 | a concrete row recorded before its account was tracked, whose edit charges the whole new amount |
| LedgerEdits.AlwaysExplained | backend/internal/store/transactions.go:691-726 | after any run of requests every row has in each account one entry, of what the row means for it, or none |
| LedgerEdits.EditChecks | backend/internal/store/transactions.go:189-317 | an edit is accepted if and only if the row is unmanaged and of no purchase, the edited row is well shaped and, where money moves or a statement is paid, its accounts fit |
| LedgerEdits.ShapeChecks | backend/internal/store/transactions.go:534-555 | the shape of a row, column by column |
| LedgerEdits.AccountChecks | backend/internal/store/transactions.go:557-582 | the accounts a row needs: they exist, a transfer keeps its currency, a paid statement belongs to the tracked card the money goes to |
| AccountMeaning.PatchMeans | backend/internal/store/accounts.go:290-395 | which updates are accepted and what each column becomes: a new limit of a tracked card is the one asked for and moves what can be spent by as much |
| AccountMeaning.DeletionChecks | backend/internal/store/transactions.go:410-468 | a transaction is deleted exactly if it is unmanaged and of no purchase and its accounts exist; its row and entries go and nothing else |
| AccountMeaning.DeletionMoves | backend/internal/store/transactions.go:728-739 | a deletion gives each tracked account back what the row had recorded there |
| AccountMeaning.ManagedMeans | backend/internal/store/transactions.go:410-455 | a managed transaction is created like any other and marked, and only a marked one is taken back by its manager |
| AccountMeaning.PurchaseChecks | backend/internal/store/msi_purchases.go:116-194 | a purchase is placed exactly with a description, 2 to 60 installments of at least a cent, on a tracked card |
| AccountMeaning.PurchaseCharges | backend/internal/store/msi_purchases.go:379-393 | a placed purchase takes its whole total from the card once and lists its installments under the next ids |
| AccountMeaning.InstallmentMeans | backend/internal/store/msi_purchases.go:334-367 | installment n in its own columns: n-1 months on with the day clamped, moving nothing, all but the last equal and the last taking what is left |
| AccountMeaning.PurchaseEditChecks | backend/internal/store/msi_purchases.go:196-332 | when a purchase can be edited or deleted, in its columns |
| LedgerLaws.DeleteUndoesCreate | backend/internal/store/transactions.go:410-468 | deleting a transaction right after creating it restores every account, entry and row |
| LedgerLaws.EditIsDeleteThenRecreate | backend/internal/store/transactions.go:189-317 | an edit of what balances depend on is accepted exactly when deleting and recording anew are, and gives the same accounts, entries and rows |
| LedgerLaws.InstallmentsAddUp | backend/internal/store/msi_purchases.go:334-367 | the n installments of an accepted purchase are positive and sum to the one total charged |
| LedgerLaws.StoredInstallments | backend/internal/store/msi_purchases.go:334-367 | installment n of a stored purchase has its share of the total, falls n-1 clamped months after the start and moves no balance |
| LedgerLaws.DeletePurchaseUndoesCreate | backend/internal/store/msi_purchases.go:290-332 | deleting a purchase right after creating it restores every account, entry and row |
| LedgerLaws.EditPurchaseIsDeleteThenRecreate | backend/internal/store/msi_purchases.go:196-288 | editing a purchase with a purchase entry is accepted exactly when it has no paid installment and deleting and placing anew are accepted, and gives the same books |
| ManagedLaws.ManagedStays | backend/internal/store/transactions.go:410-468 | no request other than its manager's own removal changes a managed transaction or its entries |
| ManagedLaws.AccountsPersist | backend/internal/store/accounts.go:290-395 | no modelled request removes an account, changes its kind or stops its tracking |
| ManagedLaws.RemoveSingle | backend/internal/store/transactions.go:728-765 | removing a transaction with one entry gives that account back what it took and changes no other balance and no other row |
| LedgerStore.Store.UpdateMaterializedBalance | backend/internal/store/transactions.go:741-765 | adds the delta to the balance or to the available credit, or reports the missing account |
| LedgerStore.Store.ApplyTransactionEffects | backend/internal/store/transactions.go:691-726 | moves every tracked account of the transaction and writes its entries, as Ledger.ApplyEffects says |
| LedgerStore.Store.ReverseBalanceEntries | backend/internal/store/transactions.go:728-739 | takes back what the entries moved, in order |
| LedgerStore.Store.RemoveTransaction | backend/internal/store/transactions.go:410-468 | reverses and deletes the entries of a row and the row, as Ledger.Remove says |
| LedgerStore.Store.WritePurchase | backend/internal/store/msi_purchases.go:334-393 | writes the purchase row, its charge if asked for, and its installments, as Ledger.PlacePurchase says |
| LedgerStore.Store.ClearPurchase | backend/internal/store/msi_purchases.go:395-455 | reverses every entry of a purchase and deletes its entries and installments, as Ledger.ClearPurchase says |
| LedgerStore.Store.CreateTransaction | backend/internal/store/transactions.go:150-187 | commits exactly the tables of Ledger.CreateTransaction and its id, or rolls back to the tables there were |
| LedgerStore.Store.UpdateTransaction | backend/internal/store/transactions.go:189-317 | commits exactly the tables of Ledger.UpdateTransaction, or rolls back |
| LedgerStore.Store.DeleteTransaction | backend/internal/store/transactions.go:410-468 | commits exactly the tables of Ledger.DeleteTransaction, or rolls back; managed rows and installments are refused |
| LedgerStore.Store.CreateAccount | backend/internal/store/accounts.go:226-288 | commits exactly the tables of Ledger.CreateAccount, opening entry included, or rolls back |
| LedgerStore.Store.UpdateAccount | backend/internal/store/accounts.go:290-395 | commits exactly the tables of Ledger.UpdateAccount, or rolls back; direct patches of tracked balances are refused |
| LedgerStore.Store.EnableBalanceTracking | backend/internal/store/accounts.go:417-482 | commits exactly the tables of Ledger.EnableTracking, or rolls back |
| LedgerStore.Store.ReconcileBalance | backend/internal/store/accounts.go:484-566 | commits exactly the tables of Ledger.ReconcileBalance, or rolls back |
| LedgerStore.Store.CreatePurchase | backend/internal/store/msi_purchases.go:116-194 | commits exactly the tables of Ledger.CreatePurchase: one charge and its historical installments, or rolls back |
| LedgerStore.Store.UpdatePurchase | backend/internal/store/msi_purchases.go:196-288 | commits exactly the tables of Ledger.UpdatePurchase, or rolls back |
| LedgerStore.Store.DeletePurchase | backend/internal/store/msi_purchases.go:290-332 | commits exactly the tables of Ledger.DeletePurchase, or rolls back |
| LoanLaws.FeasibleMonotone | backend/internal/store/loans.go:776-780 | what can be repaid within the longest term can also be repaid when less is owed |
| LoanLaws.Regenerates | backend/internal/store/loans.go:746-794 | regeneration rejects exactly an infeasible balance; otherwise it changes only pending rows, status and ids, and the rows it projects start in the restart month |
| LoanLaws.RegeneratedShows | backend/internal/store/loans.go:746-794 | the regenerated rows are the canonical schedule of what remains from the restart month |
| LoanLaws.HistoryIsFeasible | backend/internal/store/loans.go:776-780 | in every history the rules allow, the balance after it can be repaid within the longest term |
| LoanRuns.BookingAdds | backend/internal/store/loans.go:522-541 | booking an expense succeeds exactly on a valid account and adds one managed row with one entry |
| LoanRuns.PayIsAccepted | backend/internal/store/loans.go:462-573 | paying the next installment is accepted exactly when its guard holds: regeneration never rejects it |
| LoanRuns.PayIsNext | backend/internal/store/loans.go:462-516 | only the pending installment with the smallest number can be paid |
| LoanRuns.ExtraIsAccepted | backend/internal/store/loans.go:575-677 | an extra payment is accepted exactly when its guard holds: regeneration never rejects it |
| LoanRuns.ReconcileIsAccepted | backend/internal/store/loans.go:679-723 | a reconciliation is accepted exactly when its date is valid and the new balance is the old one or can be repaid within the longest term |
| LoanRuns.UndoIsAccepted | backend/internal/store/loans.go:863-919 | the latest event can always be undone, whatever happened since: regeneration never rejects it |
| LoanRuns.UndoneIsLast | backend/internal/store/loans.go:863-890 | only the latest event can be undone |
| LoanRuns.RunLoanKeeps | backend/internal/store/loans.go:462-919 | every run of payments, extras, reconciliations, undos, updates and other requests keeps the loan and the ledger sound |
| LoanMeaning.PayChecks | backend/internal/store/loans.go:462-521 | the next installment can be paid if and only if the given figures are in range, no event is later, the principal is within what remains, principal and interest fit the total, a smaller total comes with its principal, and the account is a tracked peso debit account; a figure not given is the scheduled one |
| LoanMeaning.PayRecords | backend/internal/store/loans.go:500-570 | the new event has total, principal and interest as given, and as scheduled where not given; what remains falls by exactly its principal and the history before it stays |
| LoanMeaning.PayBooks | backend/internal/store/loans.go:517-541 | an accepted payment books one expense of exactly the event's total and takes it from the loan's account; nothing else on the books moves |
| LoanMeaning.PayAgain | backend/internal/store/loans.go:481-490 | paying a settled row again is accepted if and only if it is no adjustment and date and given figures are the recorded ones, and changes nothing |
| LoanMeaning.ExtraChecks | backend/internal/store/loans.go:600-640 | an extra payment is accepted if and only if it is in range, within what remains, not before any event nor after the next due date, on a tracked peso debit account |
| LoanMeaning.ExtraRecords | backend/internal/store/loans.go:622-670 | an accepted extra payment is an event that is all principal; what remains and the account both fall by exactly its amount |
| LoanMeaning.ReconcileChecks | backend/internal/store/loans.go:679-723 | a reconciliation is accepted if and only if date and balance are in range, no event is later and the balance is the tracked one, zero or repaid by its schedule within 600 months |
| LoanMeaning.ReconcileRecords | backend/internal/store/loans.go:679-723 | after an accepted reconciliation the loan owes the bank's figure; the difference is one adjustment event and no money moves |
| LoanMeaning.PayMovesOn | backend/internal/store/loans.go:546-573 | a payment moves the next due date to the following one and the number on by one, and ends the loan exactly when nothing remains |
| LoanMeaning.ExtraKeepsDueDate | backend/internal/store/loans.go:646-670 | an extra payment keeps the next due date and number, and ends the loan exactly when nothing remains |
| LoanMeaning.ReconcileKeepsDueDate | backend/internal/store/loans.go:700-720 | a reconciliation keeps the next due date and number, and ends the loan exactly when nothing remains |
| LoanMeaning.UpdateChanges | backend/internal/store/loans.go:390-431 | an update is accepted exactly for a label of 1 to 500 characters and a tracked peso debit account, and changes what it was given and nothing else |
| LoanMeaning.OpeningChecks | backend/internal/store/loans.go:276-358 | a loan is opened if and only if label, start, schedule and account fit; it starts unpaid with its whole schedule pending, column by column |
| LoanTheorems.CreateIsSound | backend/internal/store/loans.go:276-358 | a new loan starts in a sound state |
| LoanTheorems.LoanIsAlwaysCanonical | backend/internal/store/loans.go:462-794 | in every reachable state remaining is not negative, the loan is paid off exactly at zero, paid numbers are 1..max in order, and pending rows are the schedule of what remains, whose principal sums to it |
| LoanTheorems.PaidInOrder | backend/internal/store/loans.go:462-516 | the paid installments of every allowed history are numbered 1, 2, … in the order they were paid |
| LoanTheorems.PendingSumsToRemaining | backend/internal/store/loans.go:260-274 | pending principal sums to what remains |
| LoanTheorems.ScheduledPaymentKeepsTheRest | backend/internal/store/loans.go:546-573 | paying an installment at its scheduled split leaves every other pending row as it was |
| LoanTheorems.UndoDebt | backend/internal/store/loans.go:767-794 | undoing rebuilds the pending rows there were if and only if the schedule restarts in the month they began in |
| LoanUndo.UndoIsInverse | backend/internal/store/loans.go:863-919 | undoing the latest event, even after the loan's account and label changed, restores books and debt up to ids if and only if the restart month is the old one |
| LoanUndo.ClosingExtraIsNotUndone | backend/internal/store/loans.go:767-772 | a concrete loan closed early by an extra payment whose undo does not give the schedule back |
| LoanUndo.RunsUnwind | backend/internal/store/loans.go:863-919 | after any accepted run whose events can each be undone exactly, undoing them last to first brings back the loan and the books |
| LoanUndo.DebtUnwinds | backend/internal/store/loans.go:863-919 | with requests on any other resource in between, undoing the events last to first still brings back history, status and schedule |
| LoanUndo.UndoGivesBackTheExpense | backend/internal/store/loans.go:891-919 | undoing an event gives its account back exactly what the event took and changes no other balance and no other row |
| LoanStore.Loans.Create | backend/internal/store/loans.go:276-358 | inserts the loan and its schedule exactly as LoanLedger.CreateLoan says, or changes nothing |
| LoanStore.Loans.TrackedRemaining | backend/internal/store/loans.go:260-274 | principal minus repaid principal of the settled rows |
| LoanStore.Loans.NextDueDate | backend/internal/store/loans.go:751-753 | the earliest due date of the pending rows |
| LoanStore.Loans.MaxSequence | backend/internal/store/loans.go:755-758 | the largest number of a settled installment, adjustments aside |
| LoanStore.Loans.DeletePending | backend/internal/store/loans.go:759-761 | deletes every pending row and no settled one |
| LoanStore.Loans.InsertSchedule | backend/internal/store/loans.go:372-388 | appends the rows as pending ones under fresh ids |
| LoanStore.Loans.BookExpense | backend/internal/store/loans.go:522-541 | creates the expense and marks it as the loan's own, or rolls back |
| LoanStore.Loans.CheckEventDate | backend/internal/store/loans.go:729-744 | the date check of an event, decided from the stored rows |
| LoanStore.Loans.RegenerateSchedule | backend/internal/store/loans.go:746-794 | deletes the pending rows and reinserts the canonical ones exactly as LoanLedger.Regenerate says |
| LoanStore.Loans.Pay | backend/internal/store/loans.go:462-573 | updates the row, books the expense and rebuilds the schedule exactly as LoanLedger.Pay says, or rolls back everything |
| LoanStore.Loans.AddExtraPayment | backend/internal/store/loans.go:575-677 | inserts the event, books the expense and rebuilds exactly as LoanLedger.AddExtraPayment says, or rolls back everything |
| LoanStore.Loans.Reconcile | backend/internal/store/loans.go:679-723 | inserts the adjustment and rebuilds exactly as LoanLedger.Reconcile says, or rolls back |
| LoanStore.Loans.Undo | backend/internal/store/loans.go:863-919 | deletes or reopens the latest row, removes its expense and rebuilds exactly as LoanLedger.Undo says, or rolls back |
| LoanStore.Loans.Update | backend/internal/store/loans.go:390-431 | changes account and label exactly as LoanLedger.UpdateLoan says, or rolls back |
| SavingsLaws.TotalCoversHeld | backend/internal/store/savings_allocations.go:488-507 | a goal's total is at least what it holds in any one account |
| SavingsLaws.RowApplies | backend/internal/store/savings_allocations.go:488-507 | a row that leaves its goal enough in its account never trips the guard and keeps goal totals equal to their rows |
| SavingsLaws.AssignIsAccepted | backend/internal/store/savings_allocations.go:267-356 | assigning is accepted exactly when the unassigned money (or the goal's holding, when taking back) covers it; a positive one ends with assigned money within the balance |
| SavingsLaws.MoveIsAccepted | backend/internal/store/savings_allocations.go:358-458 | a reallocation is accepted exactly when the goal holds the amount; it conserves the assigned total of every account and moves the amount between the two goals |
| SavingsLaws.SaveIsAccepted | backend/internal/store/savings_allocations.go:183-265 | saving succeeds exactly for accounts of one currency; it moves the money, credits the goal and leaves the destination's unassigned money as it was |
| SavingsLaws.DeletionIsAccepted | backend/internal/store/savings_goals.go:211-232 | deleting a goal is accepted exactly when it exists; no balance and no other goal changes, and in every account exactly what the goal held is free again |
| SavingsMeaning.AssigningMeans | backend/internal/store/savings_allocations.go:267-356 | under a fresh key: when money is assigned or released, in figures, and the one row and the one goal that change, column by column |
| SavingsMeaning.AssigningAgain | backend/internal/store/savings_allocations.go:290-309 | under a used key an assignment is accepted if and only if the key's row is the one it would write, else in conflict, and changes nothing |
| SavingsMeaning.MovingMeans | backend/internal/store/savings_allocations.go:358-458 | under a fresh key: when a goal's money is reallocated and the two rows and two goals that change, column by column |
| SavingsMeaning.MovingAgain | backend/internal/store/savings_allocations.go:380-409 | under a used key a reallocation is accepted if and only if the key's two rows are the ones it would write, else in conflict, and changes nothing |
| SavingsMeaning.SavingMeans | backend/internal/store/savings_allocations.go:183-265 | under a fresh key: when money is saved, in figures, and the transfer, entries, row and goal it writes, column by column |
| SavingsMeaning.SavingAgain | backend/internal/store/savings_allocations.go:224-243 | under the key of a stored transaction saving is accepted if and only if transfer and row are the ones it would write, else in conflict, and changes nothing |
| LedgerLaws.OneSidedCreation | backend/internal/store/transactions.go:333-388 | an income or expense on a tracked account adds one entry and moves that account by it |
| LedgerLaws.TransferCreation | backend/internal/store/transactions.go:333-388 | a transfer between tracked accounts writes two entries and moves both by the same amount in opposite directions |
| YieldShares.YieldShares | backend/internal/store/yields.go:585-612 | the loop over funded goals returns the defined proportional shares |
| YieldShares.SharesNeverExceedYield | backend/internal/store/yields.go:585-612 | shares sum to at most the yield; fewer than one cent per funded goal is left over when the goals hold at least the balance |
| YieldShares.EachShareIsProportional | backend/internal/store/yields.go:585-612 | the shares are exactly the rounded-down proportions that are not zero, one per funded goal |
| YieldShares.SplitTotal | backend/internal/store/yields.go:585-612 | all shares together are within one cent per goal of the exact proportion |
| YieldLaws.ReconcileIsAccepted | backend/internal/store/yields.go:237-416 | a yield reconciliation is accepted exactly when its checks pass; it ends with the bank's balance, yield + adjustment = difference, and credits the proportional shares |
| YieldLaws.UndoIsAccepted | backend/internal/store/yields.go:420-536 | undo is accepted exactly for the latest record of the account whose checks pass; the balance falls by what the record moved |
| YieldLaws.UndoRestores | backend/internal/store/yields.go:420-536 | an immediate undo is accepted if and only if the account was not over-assigned before a rise, and then restores balances, rows, goal totals, completion and the last reconciled date |
| YieldLaws.UndoRestoresBooks | backend/internal/store/yields.go:502-536 | an immediate undo also removes the income; of the ledger only the two opposite adjustments stay |
| YieldMeaning.YieldChecks | backend/internal/store/yields.go:237-372 | a yield is recorded if and only if the account is a tracked active debit account, the date is at most tomorrow, after no balance-affecting movement from or to it and not before its last reconciliation, 0 <= yield <= the rise of the balance, and the category is none or one for income |
| YieldMeaning.YieldRecords | backend/internal/store/yields.go:374-416 | the record, income, entries and balance an accepted reconciliation writes, column by column |
| YieldMeaning.YieldIsShared | backend/internal/store/yields.go:585-688 | each goal gets the yield times its holding over the larger of the balance and all that is assigned, rounded down; its total grows by as much and its other holdings stay |
| YieldMeaning.UndoChecks | backend/internal/store/yields.go:420-500 | a record is undone if and only if it is the latest of its account, every goal still holds what it was paid, and a lowered balance still covers what stays assigned |
| YieldMeaning.UndoMeans | backend/internal/store/yields.go:485-536 | an accepted undo takes back the record, its income, the difference it made and exactly the rows it paid |
| YieldExamples.OverspentIsNotUndone | backend/internal/store/yields.go:420-536 | a concrete run from empty tables, assign 100, spend 50, reconcile to 60, whose record cannot be undone right away |
| YieldLaws.GoalsAlwaysAgreeWithRows | backend/internal/store/savings_goals.go:100-172 | after any run of savings, yield and ledger requests a goal's total is the sum of its rows, it is completed exactly at its target, and no goal holds less than nothing in any account |
| YieldLaws.TakeKeeps | backend/internal/store/savings_allocations.go:183-507 | every accepted step keeps goals, rows, records and ledger in agreement |
| SavingsStore.Jars.ApplyGoalDelta | backend/internal/store/savings_allocations.go:488-507 | moves the total and the completion of a goal, or refuses a total below zero |
| SavingsStore.Jars.CreateGoal | backend/internal/store/savings_goals.go:100-132 | commits exactly the tables of Savings.CreateGoal, initial row included, or rolls back |
| SavingsStore.Jars.DeleteGoal | backend/internal/store/savings_goals.go:211-232 | commits exactly the tables of Savings.DeleteGoal, rows and freed transfers included, or changes nothing |
| SavingsStore.Jars.UpdateGoal | backend/internal/store/savings_goals.go:134-174 | commits exactly the tables of Savings.UpdateGoal, completion included, or rolls back |
| SavingsStore.Jars.Save | backend/internal/store/savings_allocations.go:183-265 | commits exactly the tables of Savings.Save, its key in the one key column of transactions included, or rolls back |
| SavingsStore.Jars.CreateTransaction | backend/internal/store/transactions.go:333-388 | inserts under its key, finds the live row of that key, or refuses other data; it ends in the tables of Savings.CreateMaybeKeyed or rolls back |
| SavedMoney.SavedStays | backend/internal/store/transactions.go:410-468 | no accepted request takes back the transfer behind money saved into a goal, except the deletion of that goal |
| SavedMoney.DeletionFrees | backend/internal/store/savings_goals.go:211-232 | deleting a goal leaves the transfers into it in the ledger with nothing to manage them |
| SavedMoney.TakeKeepsLinks | backend/internal/store/savings_allocations.go:183-265 | after every request each row with a transfer manages it, and no two rows have the same transfer |
| SavingsStore.Jars.Allocate | backend/internal/store/savings_allocations.go:267-356 | commits exactly the tables of Savings.Allocate, or rolls back |
| SavingsStore.Jars.Reallocate | backend/internal/store/savings_allocations.go:358-458 | commits exactly the tables of Savings.Reallocate, or rolls back |
| SavingsStore.Jars.DistributeYield | backend/internal/store/yields.go:616-688 | inserts one row for each share of what the goals hold in the account and credits each goal |
| SavingsStore.Jars.HeldInAccount | backend/internal/store/yields.go:620-672 | what each goal holds in the account, goals in ascending order |
| SavingsStore.Jars.TakeBackShares | backend/internal/store/yields.go:485-496 | debits every share of an operation from its goal and deletes its rows |
| SavingsStore.Jars.TakeBackYield | backend/internal/store/yields.go:502-518 | reverses the income and the adjustment of a record |
| SavingsStore.Jars.ApplyAdjustment | backend/internal/store/yields.go:570-579 | moves the account by the adjustment and writes its entry |
| SavingsStore.Jars.ReconcileYield | backend/internal/store/yields.go:237-416 | commits exactly the tables of Savings.ReconcileYield, or rolls back |
| SavingsStore.Jars.UndoYield | backend/internal/store/yields.go:420-536 | commits exactly the tables of Savings.UndoYield, or rolls back |
| Receipts.ServeKeeps | backend/internal/store/create_idempotency.go:40-115 | every request keeps each receipt pointing at its resource and never loses one |
| Receipts.ReceiptsAreComplete | backend/internal/store/create_idempotency.go:92-115 | no committed receipt is ever without its resource id |
| Receipts.KeyIsSpent | backend/internal/store/create_idempotency.go:40-90 | after a keyed create, whatever happens since, the same request answers the same id or that it was deleted, other data is refused, and neither changes anything |
| Receipts.KeyMoves | backend/internal/store/transactions.go:333-388 | an order stores a row under a key exactly when it is a create or a transfer into a goal that finds none there and passes its checks; the create leaves a receipt for good, the transfer money saved until its goal is deleted |
| Receipts.RowsUnderKey | backend/internal/store/transactions.go:150-187 | over any run, goal deletions included, the rows stored under a key are those of such creates and transfers: at most one create, none once there is a receipt, and at most one transfer more than goals deleted under the key |
| Receipts.FurtherRowsAreReuses | backend/internal/store/create_idempotency.go:40-90 | once a key has a receipt every further row is a transfer into a goal that found the row of the key gone |
| Receipts.StoredOnce | backend/internal/store/transactions.go:150-187 | as long as no goal with money under the key is deleted, an unused key stores at most two rows, and at most one if and only if no transfer takes the key of a deleted row |
| Receipts.PurchasesAreStoredOnce | backend/internal/store/msi_purchases.go:116-194 | a purchase key stores at most one purchase over any run, and none once it has a receipt |
| Receipts.LedgerMovesWithTheRow | backend/internal/store/create_idempotency.go:40-115 | a request under a key moves the ledger exactly when it stores a row, and then as that one creation does |
| ReceiptExamples.DeletedKeyIsReused | backend/internal/store/savings_allocations.go:183-265 | wherever a transaction can be created and money can be saved, creating, deleting and saving under one key stores two rows |
| ReceiptExamples.KeyStoresTwoRows | backend/internal/store/savings_allocations.go:183-265 | a concrete run from empty tables in which one key stores two rows |
| ReceiptExamples.KeyStoresAnyNumber | backend/internal/store/savings_goals.go:211-232 | wherever money can be saved, saving, deleting the goal and deleting the transfer can be repeated to store any number of rows under one key |
| ReceiptExamples.NothingBoundsTheRows | backend/internal/store/savings_goals.go:211-232 | a concrete user of three requests from whom on one key stores n rows, for every n |
| Receipts.OnlyAcceptedChanges | backend/internal/store/create_idempotency.go:40-90 | a refused or replayed request changes nothing |
| Receipts.RetriesChangeNothing | backend/internal/store/msi_purchases.go:118-186 | a keyed create repeated any number of times ends where the first one did |
| ReceiptMeaning.ReplayMeans | backend/internal/store/create_idempotency.go:40-90 | where the key has a receipt nothing changes, and the same draft is answered with its id, or that it was deleted, any other refused as a conflict |
| ReceiptMeaning.FoundTransactionMeans | backend/internal/store/transactions.go:333-388 | a transaction stored under the key without a receipt is answered if and only if it is the one asked for and its accounts are accepted |
| ReceiptMeaning.FreshTransactionMeans | backend/internal/store/transactions.go:150-187 | under a free key a transaction is created exactly as without one, and key and receipt name it |
| ReceiptMeaning.FoundPurchaseMeans | backend/internal/store/msi_purchases.go:116-194 | a purchase stored under the key without a receipt is answered if and only if its six columns are those asked for |
| ReceiptMeaning.FreshPurchaseMeans | backend/internal/store/msi_purchases.go:116-194 | under a free key a purchase is placed exactly as without one, and key and receipt name it |
| ReceiptMeaning.UnkeyedMeans | backend/internal/store/transactions.go:150-187 | without a key the row is created if it can be, and no key and no receipt is stored |
| ReceiptStore.Desk.BeginIdempotentCreate | backend/internal/store/create_idempotency.go:40-90 | claims a free slot with an incomplete receipt, or answers from the receipt there is and changes nothing |
| ReceiptStore.Desk.CompleteIdempotentCreate | backend/internal/store/create_idempotency.go:92-115 | sets the resource id of an incomplete claim and nothing else, or answers with an error and changes nothing |
| ReceiptStore.Desk.InsertRow | backend/internal/store/transactions.go:333-388 | inserts the row and its effects under its key, or finds the live row of that key |
| ReceiptStore.Desk.InsertPurchaseRow | backend/internal/store/msi_purchases.go:116-194 | places the purchase under its key, or finds the live purchase of that key |
| ReceiptStore.Desk.CreateClaimed | backend/internal/store/transactions.go:150-187 | checks, inserts the row and completes the claim, or reports the first error |
| ReceiptStore.Desk.Create | backend/internal/store/transactions.go:150-187 | answers and commits exactly as Receipts.Submit says, or rolls back the claim with the row |
| Footprints.PlansAscend | backend/internal/store/savings_allocations.go:474-486 | every operation locks its accounts and its goals in ascending order of id |
| Footprints.OperationTouches | backend/internal/store/yields.go:423-455 | every locking operation, the deletion of a goal aside, changes nothing outside the accounts and goals it locks |
| RowLocks.NextKeeps | backend/internal/store/transactions.go:591-627 | every step of every interleaving keeps exclusive locks, sound tables and, rows of deleted goals aside, what was read under a lock true |
| RowLocks.NoDeadlock | backend/internal/store/savings_allocations.go:192-209 | as long as some operation is unfinished some operation can move, waits for receipts, unique keys and the advisory lock of allocations included |
| RowLocks.StepsMakeProgress | backend/internal/store/savings_allocations.go:366-379 | every step finishes an operation, plans one or takes one more of its locks |
| RowLocks.EverythingFinishes | backend/internal/store/yields.go:641-645 | from every sound system some schedule finishes every operation, by stepping any thread that can move |
| RowLocks.InterleavingsAreSafe | backend/internal/store/transactions.go:591-627 | any number of operations, goal deletions among them, interleaved at each lock in any way and aborted at any moment: the tables are sound, nothing is locked twice, an operation with all its locks has locked the goals it needs, and a next step exists unless all is done |
| LockMeaning.AccountsMean | backend/internal/store/transactions.go:583-627 | the accounts an operation locks are exactly those it names |
| LockMeaning.GoalsMean | backend/internal/store/yields.go:616-672 | the goals an operation locks are those it names, for a yield those with rows in the account, for an undo those the record paid |
| LockMeaning.LocksMean | backend/internal/store/savings_allocations.go:474-486 | a planned operation takes exactly the locks of its claim, accounts, goals, key and rows |
| LockMeaning.ReadyExclude | backend/internal/store/savings_allocations.go:366-379 | in every interleaving, of operations that write allocations, write under one key, or move one account or goal, no two are ready to commit at once |
| LockMeaning.ClaimsExclude | backend/internal/store/create_idempotency.go:40-90 | of two creates under one key only one ever holds a lock |
| RecurringStore.RecurringOccurrenceDate | backend/internal/store/recurring_transactions.go:396-421 | occurrence n is the start moved n periods, the day clamped to the month |
| Recurring.OccurrencesIncrease | backend/internal/store/recurring_transactions.go:396-421 | occurrences are strictly later one after another, month ends included |
| RecurringStore.AlignRecurringSchedule | backend/internal/store/recurring_transactions.go:361-394 | the closed form returns the least n whose occurrence falls after today, and its date |
| Recurring.AlignedIsLeast | backend/internal/store/recurring_transactions.go:361-394 | the aligned number is the least one whose occurrence is still to come |
| Recurring.MaterializesWhatIsDue | backend/internal/store/recurring_transactions.go:314-359 | a catch-up records exactly the occurrences due, from the next one without a gap or repeat up to the last one not after today |
| Recurring.MaterializedExpenses | backend/internal/store/recurring_transactions.go:314-359 | each recorded occurrence has its own expense, dated and shaped by the template; nothing recorded before changes |
| Recurring.RecordedOnce | backend/internal/store/recurring_transactions.go:149-359 | over any run of catch-ups, edits and other requests the next date is the occurrence the counter names, no occurrence and no date is recorded twice however the schedule changed, those recorded since it last changed or resumed have no gap up to the counter, and a catch-up of an active template leaves nothing due |
| Recurring.AttendAllRises | backend/internal/store/recurring_transactions.go:149-152 | over any run, schedule changes included, the recorded dates of a template strictly rise and lie before its next date |
| Recurring.NoGaps | backend/internal/store/recurring_transactions.go:153-359 | from any sound agenda, over any run, the postings since the count last began are its numbers one after another up to the counter |
| Recurring.KeptScheduleIsGapless | backend/internal/store/recurring_transactions.go:153-359 | a run that keeps the schedule records exactly the numbers from the old counter to the new one, in order |
| Recurring.RestartDrops | backend/internal/store/recurring_transactions.go:185-203 | an edit that changes or resumes a schedule counts on from its least occurrence after today; what was due is all recorded first if the template is active and the edit asks for it, and all dropped otherwise |
| Recurring.CatchUpLeavesNothingDue | backend/internal/store/recurring_transactions.go:261-312 | after an accepted catch-up of an active template every later occurrence is still to come |
| RecurringMeaning.OccurrenceMeans | backend/internal/store/recurring_transactions.go:396-421 | occurrence n is n months, or n years, after the start on its day or the last of the month |
| RecurringMeaning.CatchUpChecks | backend/internal/store/recurring_transactions.go:314-359 | a catch-up goes through if and only if nothing is due, or the account exists, the amount is positive and there is a description |
| RecurringMeaning.CatchUpRecords | backend/internal/store/recurring_transactions.go:314-359 | each recorded occurrence is an expense of the template's own columns on its date, and the template counts on after them |
| RecurringMeaning.CatchUpTakes | backend/internal/store/recurring_transactions.go:314-359 | the template's account, if tracked, pays the amount once for each recorded occurrence; no other account pays |
| RecurringMeaning.EditMeans | backend/internal/store/recurring_transactions.go:153-234 | an edit stores every column it is given, pausing and resuming included, catches up first if asked to, and counts on from the first future occurrence exactly if frequency or start changed or the template resumed |
| RecurringBatch.HouseholdCatchesUp | backend/internal/store/recurring_transactions.go:261-312 | the catch-up of all due templates goes through exactly when each has an account, a positive amount and a description, since the first refusal refuses all; then no active template has anything due and paused ones are untouched |
| RecurringBatch.AcceptedTemplatesCatchUp | backend/internal/store/recurring_transactions.go:261-312 | templates whose accounts, amounts and descriptions were accepted can always be caught up with, whatever requests the ledger served since |
| RecurringBatch.EachIsCaughtUp | backend/internal/store/recurring_transactions.go:296-305 | each template of a batch records exactly what it had due, the others stay |
| RecurringBatch.AnyOrderIsTheSame | backend/internal/store/recurring_transactions.go:261-312 | in whatever order the same rows are caught up with, the templates end the same |
| RecurringBatch.AllArePaid | backend/internal/store/recurring_transactions.go:296-305 | after a batch every account has paid exactly for the occurrences its templates recorded |
| RecurringBatch.CatchUpPays | backend/internal/store/recurring_transactions.go:314-359 | a template is caught up with exactly when nothing is due or its expense is accepted, and its account pays the amount once for each occurrence |
| RecurringBatch.BatchIsARun | backend/internal/store/recurring_transactions.go:261-312 | a batch is, for each active template, a run of its own catch-up among the expenses of the others, so the laws of runs hold of batches |
| RecurringStore.MaterializeDue | backend/internal/store/recurring_transactions.go:314-359 | the loop terminates and records exactly what Recurring.Materialize says |
| RecurringStore.Templates.Process | backend/internal/store/recurring_transactions.go:261-312 | catches up with all due templates in one transaction and counts the expenses, exactly as RecurringBatch.CatchUpAll says, or rolls back everything |
| RecurringStore.Templates.Create | backend/internal/store/recurring_transactions.go:116-147 | inserts an active template due at its start and leaves the others |
| RecurringStore.UpdateRow | backend/internal/store/recurring_transactions.go:153-234 | catches up first if asked to, then replaces the row and realigns a changed or resumed schedule, as Recurring.Update says |
| RecurringStore.Templates.Update | backend/internal/store/recurring_transactions.go:153-234 | commits the edit of one template and leaves the others, or rolls back |
| Forecast.ProjectRecurringOccurrences | frontend/src/lib/cash-flow-forecast.ts:139-172 | the two guarded loops return the defined projection |
| Forecast.InWindowIsExact | frontend/src/lib/cash-flow-forecast.ts:139-172 | the reference list holds exactly the occurrences numbered n or later that lie in the window |
| Forecast.ProjectionIsComplete | frontend/src/lib/cash-flow-forecast.ts:139-172 | the projection is exactly the backend's occurrences numbered k or later in the window if and only if none lies beyond the listing guard |
| Forecast.ForecastMatchesBackend | frontend/src/lib/cash-flow-forecast.ts:139-172 | with a horizon of at most 90 days within the fast-forward guard the forecast lists exactly the backend's occurrences, with no month-end drift |
| BudgetCycles.BudgetCycleWindow | backend/internal/agent/tools_read.go:562-597 | the search terminates and returns a cycle of the anchor that holds the current date, or the first cycle before the anchor |
| BudgetCycles.WindowsTile | backend/internal/agent/tools_read.go:562-616 | windows k and k+1 abut and no date lies in two windows |
| BudgetCycles.BoundaryMeans | backend/internal/agent/tools_read.go:580-611 | cycle k starts 7k days, k months or k years after the anchor, the day clamped to the last of the month |
| BudgetCycles.CalendarMonthMeans | frontend/src/lib/budget-period.ts:45-53 | the calendar month runs from the first to the eve of the next month and holds its date |
| BudgetCycles.GetBudgetCycle | frontend/src/lib/budget-period.ts:39-72 | the direct formula with one correction returns a window holding the date, none before the anchor, and the calendar month for monthly budgets |
| BudgetCycles.FormulaMatchesSearch | frontend/src/lib/budget-period.ts:39-72 | for weekly and yearly budgets the direct formula gives the window the search gives |
| BudgetCycles.MonthlyMatchesOnTheFirst | frontend/src/lib/budget-period.ts:19-60 | monthly windows of the two sides are equal if and only if the anchor is the first of a month |
| StatementMatching.AssignMatches | backend/internal/statements/reconcile.go:209-256 | collecting, ranking and taking greedily returns the defined assignment |
| StatementMatching.CollectPairs | backend/internal/statements/reconcile.go:209-232 | the nested loops collect every eligible pair, movement by movement |
| StatementMatching.CountOutcomes | backend/internal/statements/reconcile.go:106-141 | one outcome for each movement, the counters, and the ids of the transactions used |
| StatementMatching.CollectUnmatched | backend/internal/statements/reconcile.go:143-156 | the relevant transactions of the period that no movement used |
| StatementMatching.DistanceInWindow | backend/internal/statements/reconcile.go:258-293 | every eligible pair lies within its movement's window |
| StatementMatching.AssignmentIsTheStableMatching | backend/internal/statements/reconcile.go:209-256 | the assignment is the one matching of the eligible pairs without a blocking pair, and has at least half as many pairs as any matching |
| StatementMatching.StableIsUnique | backend/internal/statements/reconcile.go:209-256 | two stable matchings under a strict ranking are the same |
| StatementMatching.StableIsLarge | backend/internal/statements/reconcile.go:209-256 | a stable matching is maximal and at least half the size of any matching of eligible pairs |
| StatementMatching.Reconcile | backend/internal/statements/reconcile.go:90-157 | the comparison loop returns the defined outcomes, counters and lists |
| StatementMatching.ReconciliationAddsUp | backend/internal/statements/reconcile.go:90-157 | the four counts sum to the movements, and regular charges and credits are what was matched plus what is missing |
| StatementMatching.OnlyRecordedIsExact | backend/internal/statements/reconcile.go:143-156 | transactions reported as only recorded are exactly the unmatched relevant ones of the period, each as often, in order of date |
| StatementMeaning.PairableMeans | backend/internal/statements/reconcile.go:175-200 | a movement and a stored row can match if and only if the row moves the card by minus the amount for a charge and plus it for a credit and is no installment, or both are installments within two cents, and the date is within 3 or 20 days of the movement's dates |
| StatementMeaning.DistanceMeans | backend/internal/statements/reconcile.go:275-293 | the distance is the days to the nearer of the movement's two dates, and none between them |
| StatementMeaning.ChosenMeans | backend/internal/statements/reconcile.go:209-256 | chosen pairs can match and share no side; a pair left out lost a side to a chosen one that is closer, or as close with more words in common, or else earlier |
| StatementMeaning.OutcomesMean | backend/internal/statements/reconcile.go:106-131 | each movement's outcome names the transaction of its chosen pair, and its status says whether there is one and whether it is an installment |
| StatementMeaning.OnlyRecordedMeans | backend/internal/statements/reconcile.go:96-157 | reported as only recorded are, in order of date and as often as given, exactly the card's transactions of the period whose id no outcome names |
| StatementMeaning.SummaryMeans | backend/internal/statements/reconcile.go:127-141 | the summary counts the outcomes by status and adds up missing charges and missing credits |
| Utf8.DecodeContinues | frontend/src/lib/agent/client.ts:77-80 | decoding goes on across any cut of the bytes, inside a character too, whatever the bytes are |
| Utf8.DecodesEncoded | frontend/src/lib/agent/client.ts:73-80 | encoded text decodes to itself, except for a byte order mark at its start |
| Utf8.CutDecodes | frontend/src/lib/agent/client.ts:77-80 | bytes cut anywhere decode to the characters that arrived completely |
| Utf8.OnlyEncodedDecodes | frontend/src/lib/agent/client.ts:73-80 | bytes decode completely and without a replacement if and only if they are the encoding of a text without it |
| SseWriter.MessageDeltas | backend/internal/httpapi/agent.go:288-302 | the slicing loop returns the defined deltas |
| SseWriter.DeltasSpellMessage | backend/internal/httpapi/agent.go:288-302 | the deltas are not empty, at most the limit long, and spell the message |
| SseWriter.Writer.Write | backend/internal/httpapi/agent.go:220-231 | numbers the frame with the next sequence, sends what the connection still takes of it, and reports whether that was all |
| SseWriter.Writer.WriteCompleted | backend/internal/httpapi/agent.go:270-286 | writes the deltas and the completed answer up to the first that fails; the response is what the connection takes of all of them, and whatever chunks of whatever beginning of it a client reads, the text it receives is a beginning of the message, and the message if the answer completes |
| SseStream.StreamAgentChat | frontend/src/lib/agent/client.ts:72-103 | however the bytes are cut into chunks, the read loop dispatches what reading all of them at once dispatches |
| SseStream.DrainContinues | frontend/src/lib/agent/client.ts:76-96 | cutting frames off a growing text continues where cutting its beginning stopped |
| SseStream.ClientUndoesServer | frontend/src/lib/agent/client.ts:72-124 | for any chunking of the bytes the server wrote the client dispatches exactly its events, up to and including the first terminal one |
| SseStream.CutStreamIsRead | frontend/src/lib/agent/client.ts:92-103 | at whatever byte the connection is cut, exactly the events whose payload arrived completely are dispatched, up to the first terminal one |
| SseWriter.AnswerArrives | backend/internal/httpapi/agent.go:270-299 | from writer to client: for every chunking of every beginning of an answer's bytes the received deltas are a beginning of the message; the answer completes exactly when all bytes arrived, the last blank line aside, and then they are the message |
| StreamMeaning.FrameMeans | backend/internal/httpapi/agent.go:220-231 | an event travels as the line `data: ` and its encoding, without a line break inside, and a blank line |
| StreamMeaning.ClientStops | frontend/src/lib/agent/client.ts:72-124 | however the bytes are cut the client dispatches the server's events in order and none after a failure or a completed answer, and is done exactly if it dispatched one |
| StreamMeaning.AnswerMeans | backend/internal/httpapi/agent.go:270-302 | an answer is sent as its message in pieces of 1 to 24 characters, in order, and then the whole with its token |
| StreamMeaning.LinesAreRead | frontend/src/lib/agent/client.ts:105-124 | every line of a frame is read, in order |
| StreamMeaning.LineMeans | frontend/src/lib/agent/client.ts:105-124 | a line that is, blanks around it aside, `data: ` and an encoded event is that event |
| StreamMeaning.OtherLinesArePassed | frontend/src/lib/agent/client.ts:105-124 | a line that does not begin so is passed over |
| SseCodec.LawfulCodecExists | backend/internal/httpapi/agent.go:220-231 | the laws asked of the event encoding can be met: a self-delimiting injective one-line encoding exists |
| StatementText.DateRoundTrip | backend/internal/statements/banamex.go:239-266 | every date from 1900 to 2999, written with one or two day digits, reads back as itself |
| StatementText.MoneyRoundTrip | backend/internal/statements/banamex.go:306-323 | every amount below the largest one, written with a peso sign and grouped by commas, reads back as its cents |
| StatementText.SignedMoneyRoundTrip | backend/internal/statements/banamex.go:306-323 | with a sign in front, the typographic minus included, the amount reads back with that sign |
| StatementText.InstallmentRoundTrip | backend/internal/statements/banamex.go:216-225 | a trimmed one-line name followed by N de M with N from 1 to M splits back into name and installment |
| TextMeaning.DateMeans | backend/internal/statements/banamex.go:239-266 | a text reads as a date if and only if it is one or two digits, a spelling of a month in any case and four digits, with dashes, and names that date from 1900 to 2999 |
| TextMeaning.MoneyMeans | backend/internal/statements/banamex.go:306-323 | a text reads as an amount if and only if it is an optional sign, the typographic minus included, and a figure, and as their cents and sign |
| TextMeaning.FigureMeans | backend/internal/statements/banamex.go:306-323 | a figure is blanks, an optional peso sign, blanks, a plain or grouped whole part up to the largest and two decimals, and nothing else |
| TextMeaning.InstallmentMeans | backend/internal/statements/banamex.go:216-225 | a description names an installment if and only if it is a visible name on one line, a gap and N de M of one to three digits with N from 1 to M; any other stays as it is |
| MovementParser.ParseBanamexMovements | backend/internal/statements/banamex.go:169-230 | the scanning loops return the readings of the rows found, numbered from 1 |
| MovementParser.ReadTail | backend/internal/statements/banamex.go:182-208 | the inner loop returns the description and the amount of the defined row tail, or neither |
| MovementParser.RowsAreRecognized | backend/internal/statements/banamex.go:169-211 | a row is read at a position if and only if the fragments there have the shape of a row, and in one way only |
| MovementParser.FoundInOrder | backend/internal/statements/banamex.go:169-230 | the rows found come in order and do not overlap |
| MovementParser.NothingIsMissed | backend/internal/statements/banamex.go:169-230 | wherever a row stands it is reported, or it starts inside one that is |
| MovementParser.MovementsAreWellFormed | backend/internal/statements/banamex.go:209-228 | every movement has a positive amount, an installment from 1 to its total, and a name if no fragment is blank |
| MovementPrinter.LayoutIsFound | backend/internal/statements/banamex.go:166-230 | among fragments without two dates in a row exactly the rows laid out are found; tables with a single date per row never match |
| MovementPrinter.RowRoundTrip | backend/internal/statements/banamex.go:169-230 | a printed row has the shape of a row and reads back as what was printed |
| MovementPrinter.ParserUndoesPrinter | backend/internal/statements/banamex.go:169-230 | whatever rows are printed among such fragments, the parser returns exactly those movements, numbered 1..n |

## Left out

- SQL, row-level security, HTTP handlers, authentication and configuration: they carry no property of their own; a row is identified by its id, and one user's tables are modelled.
- Integer width: amounts are unbounded. The engine's own products are shown to fit 64 bits (`Amortization.NoOverflow`); the overflow checks of `adjustedAvailableCredit` and the range errors of the database, which roll back, are not modelled.
- Text: lengths count characters, white space is ASCII, and letters outside ASCII are not case-folded.
- Account and loan deletion, and `Contribute`: cascades live in migrations, and `Contribute` is not routed. Laws about requests are about the modelled ones.
- Account names, currencies in patches, yield settings, merchants and lenders: labels that no balance depends on.
- Yield estimates, tiers and blended rates: floating-point figures that no ledger property rests on. The period start of a reconciliation is left out with them.
- Receipts of loans, extra payments, goals, templates and yields: they follow the receipt protocol modelled for transactions and purchases.
- Request hashes: a receipt stores the request itself, that is, hashing is taken to be injective.
- JSON: the event encoding is a parameter with three laws, shown to be satisfiable; an encoding error of the writer does not occur for these events.
- Clocks: one `today` per request and a logical counter for creation times, so ties of `created_at` do not occur.
- Locks on transaction and record rows and those the database takes for foreign keys: the deadlock claim covers the explicit locks on account and goal rows, unique keys, the receipts of keyed creates and the advisory lock of allocations. The receipts of yield reconciliations are left out.
- RowLocks.NextKeeps: reads of rows outside the locks, and all writes, happen at one moment, the commit; that the database isolates them is taken for granted.
- RowLocks.InterleavingsAreSafe: interleaves lock steps, plans, commits and aborts, not the single statements of a transaction that holds its locks.
- LedgerStore.Store.UpdateAccount: patches of name, currency and yield settings are left out; they move no balance.
- RecurringStore.Templates.Process: the rows of the query are a parameter, constrained to be the due ones in the query's order; deleting a template, which keeps its expenses, is left out.
- The connection of the event stream: it takes a number of bytes and then fails; what is lost on the way is any cut of those.
- Monthly equivalents, deferred-purchase projections and the running balance of the forecast: they would only add easy members.
- `projectRecurringDates` in `backend/internal/agent/tools_read.go`: it steps from a date already clamped, so it is not claimed to match the backend's occurrences.
- StatementMatching.AssignmentIsTheStableMatching: descriptions enter as sets of significant words; splitting text into words is left out.
- PDF extraction, token normalisation and the header fields of a statement: the movement parser starts from the token list.
- MovementPrinter.ParserUndoesPrinter: month names are printed in lower case and in one spelling; the parser's other spellings (`sept`, `set`, capitals) are read by the model (`TextMeaning.DateMeans`) but not printed.
- CRUD for categories, budgets and rules, the agent's prompt and tools, and charts: they would only add easy members.
