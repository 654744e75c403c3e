/** What the requests on a loan check, record and move, in the figures of the request and the columns of the rows. */
module LoanMeaning {
  import opened Amortization
  import opened Calendar
  import opened Common
  import opened Ledger
  import opened LedgerLaws
  import opened LoanLaws
  import opened LoanLedger
  import opened LoanRuns

  // ---------------------------------------------------------------- shared steps

  lemma {:induction false} NoEventLater(h: seq<Event>, date: Date)
    ensures (LatestDate(h).Some? ==> !Before(date, LatestDate(h).value)) <==> (forall e <- h :: !Before(date, e.on))
  {
    if h != [] {
      var init, last := h[..|h| - 1], h[|h| - 1];
      NoEventLater(init, date);
      assert h == init + [last];
    }
  }

  lemma LoanAccount(b: Books, id: Id)
    ensures ValidLoanAccount(b, id).Ok?
            <==> id in b.accounts && b.accounts[id].kind == Debit && b.accounts[id].currency == "MXN" && b.accounts[id].tracking
  {
  }

  /** An expense of the loan takes its amount from the loan's account and from nothing else. */
  lemma ExpenseIsBooked(w: World, x: Transaction)
    requires Consistent(w.books) && LoanExpense(w, x) && ValidLoanAccount(w.books, w.account).Ok?
    ensures w.books.accounts[w.account].balance.Some?
    ensures var b, a := w.books, w.books.accounts[w.account];
            Book(w, x) == Ok(Books(b.accounts[w.account := a.(balance := Some(a.balance.value - x.amount))],
                                   b.transactions[b.nextId := x], b.entries + [Entry(w.account, OfTransaction(b.nextId), -x.amount)],
                                   b.purchases, b.statements, b.managers[b.nextId := LoanPayment], b.nextId + 1))
  {
    hide Consistent, IsBlank, CreateManaged;
    AccountOf(w.books, w.account);
    OneSidedCreation(w.books, x, -x.amount, LoanPayment);
  }

  // ---------------------------------------------------------------- paying an installment

  /** The next installment can be paid exactly when the figures are in range, no event is later, the principal is not
      more than what remains, principal and interest fit in the total, a smaller total than scheduled comes with
      its principal, and the account is a tracked debit account in pesos. A figure not given is the scheduled one. */
  lemma PayChecks(w: World, input: PayInput)
    requires WorldSound(w) && w.debt.pending != []
    ensures var line := w.debt.pending[0].line;
            var total := if input.total.Some? then input.total.value else line.total;
            var principal := if input.principal.Some? then input.principal.value else line.principal;
            var interest := if input.interest.Some? then input.interest.value else line.interest;
            Pay(w, w.debt.pending[0].id, input).Ok?
            <==> && 2000 <= input.date.year <= 2200
                 && (input.total.Some? ==> 1 <= input.total.value <= 1_000_000_000_000)
                 && (input.principal.Some? ==> 0 <= input.principal.value <= 1_000_000_000_000)
                 && (input.interest.Some? ==> 0 <= input.interest.value <= 1_000_000_000_000)
                 && (forall e <- w.debt.history :: !Before(input.date, e.on))
                 && principal <= Remaining(w.debt) && principal + interest <= total
                 && !(input.total.Some? && total < line.total && input.principal.None?)
                 && w.account in w.books.accounts && w.books.accounts[w.account].kind == Debit
                 && w.books.accounts[w.account].currency == "MXN" && w.books.accounts[w.account].tracking
  {
    hide Consistent, Sound, AllBacked, Pay, ValidLoanAccount, Remaining, LatestDate;
    PayIsAccepted(w, input);
    LoanAccount(w.books, w.account);
    NoEventLater(w.debt.history, input.date);
    ScheduledIsPositive(w.debt);
  }

  lemma ScheduledIsPositive(d: Debt)
    requires Sound(d) && d.pending != []
    ensures d.pending[0].line.principal > 0 && d.pending[0].line.interest >= 0
  {
    hide Chronicle, Closes, MonthlyInterest, Installments, InMonth;
    PendingIsNew(d);
    NextLine(d);
  }

  /** What an accepted payment records: the pending row becomes the last event, with each given figure where one is given
      and the scheduled one otherwise, and what remains falls by exactly its principal. */
  lemma PayRecords(w: World, input: PayInput)
    requires WorldSound(w) && w.debt.pending != [] && Pay(w, w.debt.pending[0].id, input).Ok?
    ensures var line, next := w.debt.pending[0].line, Pay(w, w.debt.pending[0].id, input).value;
            && |next.debt.history| == |w.debt.history| + 1 && next.debt.history[..|w.debt.history|] == w.debt.history
            && var e := next.debt.history[|w.debt.history|];
            && e.id == w.debt.pending[0].id && e.line == line && !e.adjustment && e.on == input.date
            && e.total == (if input.total.Some? then input.total.value else line.total)
            && e.principal == (if input.principal.Some? then input.principal.value else line.principal)
            && e.interest == Some(if input.interest.Some? then input.interest.value else line.interest)
            && e.transaction == Some(w.books.nextId)
            && Remaining(next.debt) == Remaining(w.debt) - e.principal
            && next.debt.terms == w.debt.terms && next.account == w.account && next.description == w.description
  {
    hide Consistent, Sound, AllBacked, Pay, PayGuard, Regenerate, Book, Repaid, PayExpense;
    PayIsAccepted(w, input);
    var settled := SettleInstallment(w.debt, 0, input, w.books.nextId);
    RegenerateKeepsHistory(settled, None);
    RepaidMore(w.debt.history, settled.history[|w.debt.history|]);
  }

  /** What an accepted payment books: an expense of exactly the total of its event, on the day paid, that takes this much
      from the loan's account and nothing from any other. */
  lemma PayBooks(w: World, input: PayInput)
    requires WorldSound(w) && w.debt.pending != [] && Pay(w, w.debt.pending[0].id, input).Ok?
    ensures var b, line, next := w.books, w.debt.pending[0].line, Pay(w, w.debt.pending[0].id, input).value;
            var total := if input.total.Some? then input.total.value else line.total;
            && w.account in b.accounts && b.accounts[w.account].balance.Some?
            && next.books == Books(
                 b.accounts[w.account := b.accounts[w.account].(balance := Some(b.accounts[w.account].balance.value - total))],
                 b.transactions[b.nextId := Transaction(w.account, Expense, total, input.category, input.date,
                                                        w.description + " — mensualidad " + Decimal(line.sequence), None, None, true, None)],
                 b.entries + [Entry(w.account, OfTransaction(b.nextId), -total)],
                 b.purchases, b.statements, b.managers[b.nextId := LoanPayment], b.nextId + 1)
  {
    hide Consistent, Sound, AllBacked, Pay, Regenerate, Book, SettleInstallment, IsBlank, ValidSplit, ValidEventDate, Decimal, ValidLoanAccount;
    PayIsAccepted(w, input);
    PaidIsPositive(w.debt, input);
    LabelsShow(w, w.debt.pending[0].line.sequence);
    ExpenseIsBooked(w, PayExpense(w, input));
    LoanAccount(w.books, w.account);
  }

  /** Asking again to pay a paid installment changes nothing; it is accepted exactly when the day and every figure given are
      the recorded ones. An adjustment is never paid. */
  lemma PayAgain(w: World, i: nat, input: PayInput)
    requires WorldSound(w) && i < |w.debt.history|
    ensures var e, again := w.debt.history[i], Pay(w, w.debt.history[i].id, input);
            && (again.Ok? ==> again.value == w)
            && (again.Ok?
                <==> && 2000 <= input.date.year <= 2200
                     && (input.total.Some? ==> 1 <= input.total.value <= 1_000_000_000_000)
                     && (input.principal.Some? ==> 0 <= input.principal.value <= 1_000_000_000_000)
                     && (input.interest.Some? ==> 0 <= input.interest.value <= 1_000_000_000_000)
                     && !e.adjustment && e.on == input.date
                     && (input.total.Some? ==> e.total == input.total.value)
                     && (input.principal.Some? ==> e.principal == input.principal.value)
                     && (input.interest.Some? ==> e.interest == Some(input.interest.value)))
  {
    hide Consistent, AllBacked, Regenerate, Book, Feasible, Projects, Fresh, SettleInstallment;
    EventsHaveTheirIds(w.debt.terms, w.debt.history, i);
  }

  lemma {:induction false} EventsHaveTheirIds(t: Terms, h: seq<Event>, i: nat)
    requires t.rateBps >= 0 && Chronicle(t, h) && i < |h|
    ensures FindEvent(h, h[i].id) == Some(i) && h[i].id <= h[|h| - 1].id && (i < |h| - 1 ==> h[i].id < h[|h| - 1].id)
  {
    hide Feasible, Numbered;
    var last := |h| - 1;
    if i < last {
      assert h[..last][i] == h[i];
      EventsHaveTheirIds(t, h[..last], i);
      assert Follows(t, h[..last], h[last]);
    }
  }

  // ---------------------------------------------------------------- extra payments

  /** An extra payment is accepted exactly when it is in range, not more than what remains, not before any event, not
      after the next due date, and on a tracked debit account in pesos. */
  lemma ExtraChecks(w: World, amount: int, date: Date, category: Option<Id>)
    requires WorldSound(w)
    ensures AddExtraPayment(w, amount, date, category).Ok?
            <==> && 2000 <= date.year <= 2200 && 1 <= amount <= 1_000_000_000_000 && amount <= Remaining(w.debt)
                 && (forall e <- w.debt.history :: !Before(date, e.on))
                 && w.debt.pending != [] && !Before(w.debt.pending[0].line.due, date)
                 && w.account in w.books.accounts && w.books.accounts[w.account].kind == Debit
                 && w.books.accounts[w.account].currency == "MXN" && w.books.accounts[w.account].tracking
  {
    hide Consistent, AllBacked, AddExtraPayment, ValidLoanAccount, LatestDate, Repaid, NextDue, Chronicle, Feasible, Fresh, Canonical;
    ExtraIsAccepted(w, amount, date, category);
    LoanAccount(w.books, w.account);
    NoEventLater(w.debt.history, date);
    if w.debt.pending != [] {
      NextOfSound(w.debt);
    }
  }

  /** What an accepted extra payment records and books: an event that is all principal, what remains and the account's
      balance both lower by exactly its amount, and an expense of it on the day paid. */
  lemma ExtraRecords(w: World, amount: int, date: Date, category: Option<Id>)
    requires WorldSound(w) && AddExtraPayment(w, amount, date, category).Ok?
    ensures var b, d, next := w.books, w.debt, AddExtraPayment(w, amount, date, category).value;
            && next.debt.history == d.history + [Event(d.tick, Line(0, date, amount, 0, amount), false, amount, None, amount,
                                                       Some(b.nextId), date, d.tick)]
            && Remaining(next.debt) == Remaining(d) - amount
            && next.debt.terms == d.terms && next.account == w.account && next.description == w.description
            && w.account in b.accounts && b.accounts[w.account].balance.Some?
            && next.books == Books(
                 b.accounts[w.account := b.accounts[w.account].(balance := Some(b.accounts[w.account].balance.value - amount))],
                 b.transactions[b.nextId := Transaction(w.account, Expense, amount, category, date,
                                                        w.description + " — aportación a capital", None, None, true, None)],
                 b.entries + [Entry(w.account, OfTransaction(b.nextId), -amount)],
                 b.purchases, b.statements, b.managers[b.nextId := LoanPayment], b.nextId + 1)
  {
    hide Consistent, AllBacked, Regenerate, Book, IsBlank, ValidEventDate, ValidLoanAccount, Repaid, Sound;
    ExtraIsAccepted(w, amount, date, category);
    LabelsShow(w, 0);
    ExpenseIsBooked(w, ExtraExpense(w, amount, date, category));
    LoanAccount(w.books, w.account);
    var settled := SettleExtra(w.debt, amount, date, w.books.nextId);
    RegenerateKeepsHistory(settled, None);
    RepaidMore(w.debt.history, settled.history[|w.debt.history|]);
  }

  // ---------------------------------------------------------------- the next due date

  lemma PendingDates(d: Debt, i: nat)
    requires Sound(d) && i < |d.pending|
    ensures var line, first := d.pending[i].line, d.pending[0].line;
            && 12 * line.due.year + line.due.month == 12 * first.due.year + first.due.month + i
            && line.due == InMonth(line.due.MonthIndex(), d.terms.day) && line.sequence == LastNumber(d.history) + 1 + i
            && 2000 <= line.due.year
  {
    hide Chronicle, Closes, MonthlyInterest, Installments, InMonth, RowAt, Repaid, LastNumber, Fresh;
    PendingIsNew(d);
    var month, plan := d.pending[0].line.due.MonthIndex(), d.terms.FixedPart();
    RowOfSchedule(plan, Remaining(d), MAX_MONTHS, LastNumber(d.history) + 1, month, i);
    RowIsDated(plan, BalanceBefore(Remaining(d), Canonical(d, month), i), LastNumber(d.history) + 1 + i, month + i);
    assert d.pending[i].line == LineOf(Canonical(d, month)[i]);
    LaterYears(d.pending[0].line.due, d.pending[i].line.due, i);
  }

  lemma LaterYears(a: Date, b: Date, i: nat)
    requires b.MonthIndex() == a.MonthIndex() + i
    ensures a.year <= b.year
  {
  }

  /** After a change of what is owed the schedule goes on from the first of the pending rows, or is empty if nothing is. */
  lemma GoesOn(d: Debt)
    requires SoundTerms(d.terms) && Monthly(d.pending) && Regenerate(d, None).Ok?
    requires d.pending != [] ==> 2000 <= d.pending[0].line.due.year && d.pending[0].line.due == InMonth(d.pending[0].line.due.MonthIndex(), d.terms.day)
    ensures var r := Regenerate(d, None).value;
            && Remaining(r) == Remaining(d) && (r.pending == [] <==> Remaining(d) <= 0) && (r.paidOff <==> Remaining(d) <= 0)
            && (r.pending != [] && d.pending != [] ==> r.pending[0].line.due == d.pending[0].line.due)
            && (r.pending != [] ==> r.pending[0].line.sequence == LastNumber(d.history) + 1)
  {
    hide Regenerate, InMonth, Repaid, LastNumber, Closes, MonthlyInterest, Installments;
    if d.pending != [] {
      FirstIsNext(d.pending);
    }
    Regenerates(d, None);
    if Remaining(d) > 0 {
      NextOfSound(Regenerate(d, None).value);
    }
  }

  /** Paying an installment moves the next due date to the one after it and the next number on by one, or ends the loan if
      nothing remains. */
  lemma PayMovesOn(w: World, input: PayInput)
    requires WorldSound(w) && w.debt.pending != [] && Pay(w, w.debt.pending[0].id, input).Ok?
    ensures var d, next := w.debt, Pay(w, w.debt.pending[0].id, input).value.debt;
            && (next.pending == [] <==> Remaining(next) == 0) && (next.paidOff <==> Remaining(next) == 0)
            && (next.pending != [] ==> next.pending[0].line.sequence == d.pending[0].line.sequence + 1)
            && (next.pending != [] && |d.pending| > 1 ==> next.pending[0].line.due == d.pending[1].line.due)
  {
    hide Consistent, AllBacked, Pay, PayGuard, Regenerate, Book, Repaid, PayExpense, Chronicle, Feasible, Projects, Fresh, LastNumber, InMonth, SoundTerms;
    PayIsAccepted(w, input);
    var d, settled := w.debt, SettleInstallment(w.debt, 0, input, w.books.nextId);
    RepaidMore(d.history, settled.history[|d.history|]);
    PendingDates(d, 0);
    if |d.pending| > 1 {
      PendingDates(d, 1);
    }
    PaidKeepsMonths(d);
    assert settled.pending == d.pending[1..];
    GoesOn(settled);
    PayRecords(w, input);
    PayLeavesNoDebtBelowZero(w, input);
  }

  lemma PaidKeepsMonths(d: Debt)
    requires Sound(d) && d.pending != []
    ensures Monthly(d.pending) && Monthly(d.pending[1..])
  {
    hide Chronicle, Closes, MonthlyInterest, Installments, InMonth, Fresh;
    PendingIsNew(d);
    NextOfSound(d);
    TailIsMonthly(d.pending);
  }

  lemma PayLeavesNoDebtBelowZero(w: World, input: PayInput)
    requires WorldSound(w) && w.debt.pending != [] && Pay(w, w.debt.pending[0].id, input).Ok?
    ensures Remaining(Pay(w, w.debt.pending[0].id, input).value.debt) >= 0
  {
    hide Consistent, Sound, AllBacked, Pay, ValidLoanAccount, Repaid;
    PayRecords(w, input);
    PayChecks(w, input);
  }

  /** An extra payment and a reconciliation keep the next due date and its number, or end the loan if nothing remains. */
  lemma ExtraKeepsDueDate(w: World, amount: int, date: Date, category: Option<Id>)
    requires WorldSound(w) && AddExtraPayment(w, amount, date, category).Ok?
    ensures var d, next := w.debt, AddExtraPayment(w, amount, date, category).value.debt;
            && (next.pending == [] <==> Remaining(next) == 0) && (next.paidOff <==> Remaining(next) == 0)
            && (next.pending != [] ==> next.pending[0].line.due == d.pending[0].line.due && next.pending[0].line.sequence == d.pending[0].line.sequence)
  {
    hide Consistent, AllBacked, AddExtraPayment, Repaid, Chronicle, Feasible, Projects, Fresh, LastNumber, InMonth, SoundTerms, Regenerate;
    ExtraChecks(w, amount, date, category);
    ExtraRecords(w, amount, date, category);
    var d, settled := w.debt, SettleExtra(w.debt, amount, date, w.books.nextId);
    ExtraIsSettled(w, amount, date, category);
    RepaidMore(d.history, settled.history[|d.history|]);
    PendingDates(d, 0);
    PaidKeepsMonths(d);
    GoesOn(settled);
  }

  lemma ExtraIsSettled(w: World, amount: int, date: Date, category: Option<Id>)
    requires AddExtraPayment(w, amount, date, category).Ok?
    ensures Regenerate(SettleExtra(w.debt, amount, date, w.books.nextId), None) == Ok(AddExtraPayment(w, amount, date, category).value.debt)
  {
    hide Regenerate, Book, ValidEventDate, Remaining;
  }

  lemma ReconcileKeepsDueDate(w: World, actual: int, date: Date)
    requires WorldSound(w) && Reconcile(w, actual, date).Ok?
    ensures var d, next := w.debt, Reconcile(w, actual, date).value.debt;
            && (next.pending == [] <==> Remaining(next) == 0) && (next.paidOff <==> Remaining(next) == 0)
            && (next.pending != [] && d.pending != [] ==>
                  next.pending[0].line.due == d.pending[0].line.due && next.pending[0].line.sequence == d.pending[0].line.sequence)
  {
    hide Consistent, AllBacked, Repaid, Chronicle, Feasible, Fresh, LastNumber, InMonth, SoundTerms, Regenerate, ValidEventDate, Canonical, Shows;
    var d, settled := w.debt, SettleAdjustment(w.debt, Remaining(w.debt) - actual, date);
    AdjustedShape(d, actual, date);
    RepaidMore(d.history, settled.history[|d.history|]);
    if d.pending != [] {
      PendingDates(d, 0);
      PaidKeepsMonths(d);
    }
    if actual != Remaining(d) {
      GoesOn(settled);
    } else {
      SoundNext(d);
    }
  }

  // ---------------------------------------------------------------- reconciling, relabelling, opening

  /** After an accepted reconciliation the loan owes exactly what the bank says. If that is news it is recorded as one
      adjustment of the difference on the day given; no money moves. */
  lemma ReconcileRecords(w: World, actual: int, date: Date)
    requires WorldSound(w) && Reconcile(w, actual, date).Ok?
    ensures var d, next := w.debt, Reconcile(w, actual, date).value;
            && Remaining(next.debt) == actual
            && next.books == w.books && next.account == w.account && next.description == w.description && next.debt.terms == d.terms
            && (actual == Remaining(d) ==> next == w)
            && (actual != Remaining(d) ==>
                  next.debt.history == d.history + [Event(d.tick, Line(-1, date, 0, 0, 0), true, Remaining(d) - actual, None, 0, None, date, d.tick)])
  {
    hide Consistent, AllBacked, Regenerate, ValidEventDate, Repaid, Sound;
    var settled := SettleAdjustment(w.debt, Remaining(w.debt) - actual, date);
    AdjustedShape(w.debt, actual, date);
    RegenerateKeepsHistory(settled, None);
  }

  /** The rest can be repaid when its schedule over the longest term ends at zero. */
  lemma FeasibleSchedule(t: Terms, balance: int)
    requires SoundTerms(t) && 0 < balance <= MAX_AMOUNT
    ensures var rows := Schedule(Terms(balance, t.rateBps, t.payment, 600, t.start, t.day));
            Feasible(t, balance) <==> rows != [] && rows[|rows| - 1].remaining == 0
  {
    hide Closes, MonthlyInterest, Installments, InMonth;
    ScheduleEndsAtZero(t.FixedPart(), balance, MAX_MONTHS, 1, t.start.MonthIndex());
  }

  /** A reconciliation is accepted exactly for a date in range no event is after and a balance in range that is what
      remains, or nothing, or one the monthly payment repays within 600 months. */
  lemma ReconcileChecks(w: World, actual: int, date: Date)
    requires WorldSound(w)
    ensures var t := w.debt.terms;
            var rows := Schedule(Terms(actual, t.rateBps, t.payment, 600, t.start, t.day));
            Reconcile(w, actual, date).Ok?
            <==> && 2000 <= date.year <= 2200 && 0 <= actual <= 1_000_000_000_000
                 && (forall e <- w.debt.history :: !Before(date, e.on))
                 && (actual == Remaining(w.debt) || actual == 0 || (rows != [] && rows[|rows| - 1].remaining == 0))
  {
    hide Consistent, AllBacked, Reconcile, Feasible, LatestDate, Repaid, Schedule, Chronicle, Projects, Fresh, SoundTerms, ValidEventDate;
    ReconcileIsAccepted(w, actual, date);
    EventDates(w.debt, date);
    RateIsNatural(w.debt.terms);
    NothingIsFeasible(w.debt.terms);
    if 0 < actual <= MAX_AMOUNT {
      FeasibleSchedule(w.debt.terms, actual);
    }
  }

  lemma EventDates(d: Debt, date: Date)
    ensures ValidEventDate(d, date, false) <==> forall e <- d.history :: !Before(date, e.on)
  {
    hide LatestDate;
    NoEventLater(d.history, date);
  }

  /** An update of a loan changes what it was given, keeps what it was not, and moves no money and no row. It takes a
      label of 1 to 500 characters, not all of them white space, and a tracked debit account in pesos. */
  lemma UpdateChanges(w: World, account: Option<Id>, description: Option<string>)
    ensures var to := if account.Some? then account.value else w.account;
            UpdateLoan(w, account, description).Ok?
            <==> && (description.Some? ==> |description.value| <= 500 && exists c <- description.value :: !IsSpace(c))
                 && to in w.books.accounts && w.books.accounts[to].kind == Debit && w.books.accounts[to].currency == "MXN"
                 && w.books.accounts[to].tracking
    ensures UpdateLoan(w, account, description).Ok? ==>
              UpdateLoan(w, account, description).value
              == World(w.books, w.debt, if account.Some? then account.value else w.account,
                       if description.Some? then description.value else w.description)
  {
  }

  /** A loan is opened exactly with a label, a start in range that is its own first due date, terms whose schedule ends
      at zero, and a tracked debit account in pesos. It starts with nothing paid, all of it owed and the whole
      schedule pending, and no money moves. */
  lemma OpeningChecks(b: Books, input: LoanInput)
    ensures var rows := Schedule(input.terms);
            CreateLoan(b, input).Ok?
            <==> && |input.description| <= 500 && (exists c <- input.description :: !IsSpace(c))
                 && 2000 <= input.terms.start.year <= 2200
                 && rows != [] && rows[0].due == input.terms.start && rows[|rows| - 1].remaining == 0
                 && input.account in b.accounts && b.accounts[input.account].kind == Debit
                 && b.accounts[input.account].currency == "MXN" && b.accounts[input.account].tracking
    ensures CreateLoan(b, input).Ok? ==>
              var rows, w := Schedule(input.terms), CreateLoan(b, input).value;
              && w.books == b && w.account == input.account && w.description == input.description
              && w.debt.terms == input.terms && w.debt.history == [] && !w.debt.paidOff
              && |w.debt.pending| == |rows|
              && (forall i :: 0 <= i < |rows| ==>
                    w.debt.pending[i].line == Line(rows[i].sequence, rows[i].due, rows[i].principal, rows[i].interest, rows[i].total))
  {
    hide Installments, ValidLoanAccount;
    LoanAccount(b, input.account);
  }
}
