/** The loan over whole runs, with its expenses on the books: every reachable state is sound, each event is backed
    by exactly one entry, and requests are accepted exactly when their guards hold. */
module LoanRuns {
  import opened Amortization
  import opened Calendar
  import opened Common
  import opened ExtraPayment
  import opened Ledger
  import opened LedgerLaws
  import opened LoanLaws
  import opened LoanLedger
  import opened ManagedLaws

  // ---------------------------------------------------------------- events and their expenses

  /** The expense behind an event: managed by the loan, one entry, for the total paid. */
  ghost predicate BackedBy(b: Books, e: Event) {
    e.transaction.Some? ==>
      var t := e.transaction.value;
      && t in b.managers && b.managers[t] == LoanPayment && t in b.transactions
      && Selected(b.entries, OneTransaction(t)) == [Entry(b.transactions[t].account, OfTransaction(t), -e.total)]
  }

  ghost predicate AllBacked(b: Books, h: seq<Event>) {
    && (forall i :: 0 <= i < |h| ==> BackedBy(b, h[i]))
    && (forall i, j :: 0 <= i < j < |h| && h[i].transaction.Some? && h[j].transaction.Some? ==>
          h[i].transaction.value < h[j].transaction.value)
  }

  ghost predicate WorldSound(w: World) {
    Consistent(w.books) && Sound(w.debt) && AllBacked(w.books, w.debt.history)
  }

  lemma StaysBacked(b: Books, after: Books, e: Event)
    requires BackedBy(b, e) && (e.transaction.Some? ==> Stays(b, after, e.transaction.value))
    ensures BackedBy(after, e)
  {
  }

  /** An expense on a valid loan account. */
  predicate LoanExpense(w: World, x: Transaction) {
    && x == Expensed(w, x.amount, x.category, x.date, x.description)
    && x.amount > 0 && !IsBlank(x.description)
  }

  /** Booking an expense succeeds exactly on a valid account, and adds one managed transaction with one entry. */
  lemma BookingAdds(w: World, x: Transaction)
    requires Consistent(w.books) && LoanExpense(w, x)
    ensures Book(w, x).Ok? <==> ValidLoanAccount(w.books, w.account).Ok?
    ensures Book(w, x).Err? ==> Book(w, x).error == ValidLoanAccount(w.books, w.account).error
    ensures Book(w, x).Ok? ==>
              var b, id := Book(w, x).value, w.books.nextId;
              && b == CreateManaged(w.books, x, LoanPayment).value && CreateTransaction(w.books, x).Ok?
              && Consistent(b) && id in b.managers && b.managers[id] == LoanPayment && id in b.transactions && b.transactions[id] == x
              && Selected(b.entries, OneTransaction(id)) == [Entry(w.account, OfTransaction(id), -x.amount)]
  {
    hide Agrees, Selected, Linked;
    if ValidLoanAccount(w.books, w.account).Ok? {
      var id := w.books.nextId;
      var next := w.books.(nextId := id + 1);
      var listed := next.(transactions := next.transactions[id := x]);
      EffectsKeep(listed, id, x);
      PerformKeeps(w.books, NewManaged(x, LoanPayment));
      NoEntryYet(w.books, id);
      var e := Entry(w.account, OfTransaction(id), -x.amount);
      assert TrackedOnly(listed.accounts, [e]) == [e];
      SelectedOfOneMore(w.books.entries, e, OneTransaction(id));
    }
  }

  /** A newly booked event joins the backed ones. */
  lemma BookedEvent(w: World, x: Transaction, e: Event)
    requires Consistent(w.books) && AllBacked(w.books, w.debt.history) && LoanExpense(w, x) && Book(w, x).Ok?
    requires e.transaction == Some(w.books.nextId) && e.total == x.amount
    ensures Consistent(Book(w, x).value) && AllBacked(Book(w, x).value, w.debt.history + [e])
  {
    hide Consistent, Selected, CreateManaged, Stays, ValidLoanAccount;
    BookingAdds(w, x);
    var b, h := Book(w, x).value, w.debt.history + [e];
    forall i | 0 <= i < |w.debt.history|
      ensures BackedBy(b, h[i])
      ensures h[i].transaction.Some? ==> h[i].transaction.value < w.books.nextId
    {
      if h[i].transaction.Some? {
        Backing(w.books, h[i]);
        ManagedStays(w.books, NewManaged(x, LoanPayment), h[i].transaction.value);
      }
      StaysBacked(w.books, b, h[i]);
    }
  }

  lemma Backing(b: Books, e: Event)
    requires Consistent(b) && BackedBy(b, e) && e.transaction.Some?
    ensures e.transaction.value in b.managers && e.transaction.value < b.nextId
  {
    hide Agrees;
  }

  lemma NotBlank(text: string, i: nat)
    requires i < |text| && !IsSpace(text[i])
    ensures !IsBlank(text)
  {
    assert text[i] in text;
  }

  lemma LabelsShow(w: World, number: int)
    ensures !IsBlank(InstallmentLabel(w, number)) && !IsBlank(w.description + " — aportación a capital")
  {
    hide IsBlank, Decimal;
    NotBlank(InstallmentLabel(w, number), |w.description| + 3);
    NotBlank(w.description + " — aportación a capital", |w.description| + 3);
  }

  // ---------------------------------------------------------------- acceptance

  /** The id of a pending row is not the id of an event. */
  lemma {:induction false} LaterIdIsNew(t: Terms, h: seq<Event>, id: Id)
    requires t.rateBps >= 0 && Chronicle(t, h) && (h != [] ==> h[|h| - 1].id < id)
    ensures FindEvent(h, id).None?
  {
    hide Feasible, Numbered;
    if h != [] {
      var init := h[..|h| - 1];
      if init != [] {
        assert Follows(t, init, h[|h| - 1]);
      }
      LaterIdIsNew(t, init, id);
    }
  }

  lemma PendingIsNew(d: Debt)
    requires Sound(d) && d.pending != []
    ensures FindEvent(d.history, d.pending[0].id).None? && HasPlanned(d.pending, d.pending[0].id) && NextPending(d.pending) == 0
    ensures Remaining(d) > 0
  {
    hide Chronicle, Closes, MonthlyInterest, Installments, InMonth;
    NextOfSound(d);
    LaterIdIsNew(d.terms, d.history, d.pending[0].id);
  }

  /** The checks a payment passes, in the caller's terms. */
  predicate PayGuard(w: World, input: PayInput)
    requires w.debt.pending != []
  {
    && ValidPayInput(input) && ValidEventDate(w.debt, input.date, false)
    && ValidSplit(w.debt.pending[0].line, input, Remaining(w.debt)) && ValidLoanAccount(w.books, w.account).Ok?
  }

  function PayExpense(w: World, input: PayInput): Transaction
    requires w.debt.pending != []
  {
    var line := w.debt.pending[0].line;
    Expensed(w, Settle(line, input).0, input.category, input.date, InstallmentLabel(w, line.sequence))
  }

  lemma PaidIsPositive(d: Debt, input: PayInput)
    requires Sound(d) && d.pending != [] && ValidPayInput(input)
    ensures Settle(d.pending[0].line, input).0 > 0
  {
    hide Chronicle, Closes, MonthlyInterest, Installments, InMonth;
    PendingIsNew(d);
    NextLine(d);
  }

  /** The pieces of an accepted payment fit together. */
  lemma PayRegenerates(w: World, input: PayInput)
    requires WorldSound(w) && w.debt.pending != []
    requires ValidPayInput(input) && ValidEventDate(w.debt, input.date, false) && ValidSplit(w.debt.pending[0].line, input, Remaining(w.debt))
    ensures var settled := SettleInstallment(w.debt, 0, input, w.books.nextId);
            Regenerate(settled, None).Ok? && Sound(Regenerate(settled, None).value)
            && Regenerate(settled, None).value.history == settled.history
  {
    hide Consistent, Sound, AllBacked, Regenerate, SettleInstallment, Ready;
    PaidIsReady(w.debt, input, w.books.nextId);
    var settled := SettleInstallment(w.debt, 0, input, w.books.nextId);
    RegeneratedIsSound(settled, None);
    RegenerateKeepsHistory(settled, None);
  }

  lemma RegenerateKeepsHistory(d: Debt, fallback: Option<Date>)
    ensures Regenerate(d, fallback).Ok? ==>
              Regenerate(d, fallback).value.history == d.history && Regenerate(d, fallback).value.terms == d.terms
  {
  }

  /** Paying the next installment is accepted exactly when its guard holds: regeneration never rejects it. */
  lemma PayIsAccepted(w: World, input: PayInput)
    requires WorldSound(w) && w.debt.pending != []
    ensures Pay(w, w.debt.pending[0].id, input).Ok? <==> PayGuard(w, input)
    ensures PayGuard(w, input) ==>
              && Book(w, PayExpense(w, input)).Ok?
              && Regenerate(SettleInstallment(w.debt, 0, input, w.books.nextId), None).Ok?
              && Pay(w, w.debt.pending[0].id, input)
                 == Ok(w.(books := Book(w, PayExpense(w, input)).value,
                          debt := Regenerate(SettleInstallment(w.debt, 0, input, w.books.nextId), None).value))
  {
    hide Consistent, Sound, AllBacked, Regenerate, SettleInstallment, Book, ValidSplit, ValidEventDate, FindEvent, HasPlanned, NextPending,
         IsBlank, InstallmentLabel, ValidLoanAccount, Settle, ValidPayInput, Remaining;
    PendingIsNew(w.debt);
    if ValidPayInput(input) && ValidEventDate(w.debt, input.date, false) && ValidSplit(w.debt.pending[0].line, input, Remaining(w.debt)) {
      PayRegenerates(w, input);
      PaidIsPositive(w.debt, input);
      LabelsShow(w, w.debt.pending[0].line.sequence);
      BookingAdds(w, PayExpense(w, input));
    }
  }

  lemma PayKeeps(w: World, id: Id, input: PayInput)
    requires WorldSound(w) && Pay(w, id, input).Ok?
    ensures WorldSound(Pay(w, id, input).value)
  {
    hide Consistent, Sound, AllBacked, Regenerate, SettleInstallment, Book, ValidSplit, ValidEventDate, FindEvent, HasPlanned,
         IsBlank, InstallmentLabel, ValidLoanAccount, Settle, ValidPayInput, Remaining;
    if Pay(w, id, input).value != w {
      PayIsNext(w, id, input);
      PayIsAccepted(w, input);
      PayRegenerates(w, input);
      PaidIsPositive(w.debt, input);
      LabelsShow(w, w.debt.pending[0].line.sequence);
      SettledShape(w.debt, input, w.books.nextId);
      var settled := SettleInstallment(w.debt, 0, input, w.books.nextId);
      BookedEvent(w, PayExpense(w, input), settled.history[|w.debt.history|]);
    }
  }

  lemma SettledShape(d: Debt, input: PayInput, transaction: Id)
    requires d.pending != []
    ensures var settled := SettleInstallment(d, 0, input, transaction);
            && |settled.history| == |d.history| + 1 && settled.history == d.history + [settled.history[|d.history|]]
            && settled.history[|d.history|].transaction == Some(transaction)
            && settled.history[|d.history|].total == Settle(d.pending[0].line, input).0
  {
  }

  /** Only the next pending row can be paid. */
  lemma PayIsNext(w: World, id: Id, input: PayInput)
    requires WorldSound(w) && Pay(w, id, input).Ok? && Pay(w, id, input).value != w
    ensures w.debt.pending != [] && w.debt.pending[0].id == id
  {
    hide Consistent, AllBacked, Regenerate, SettleInstallment, Book, ValidSplit, ValidEventDate, FindEvent,
         IsBlank, InstallmentLabel, ValidLoanAccount, Settle, ValidPayInput, Remaining, Sound;
    if w.debt.pending != [] {
      PendingIsNew(w.debt);
    }
  }

  predicate ExtraGuard(w: World, amount: int, date: Date) {
    && ValidLoanDate(date) && 0 < amount <= MAX_AMOUNT && amount <= Remaining(w.debt)
    && ValidEventDate(w.debt, date, true) && ValidLoanAccount(w.books, w.account).Ok?
  }

  function ExtraExpense(w: World, amount: int, date: Date, category: Option<Id>): Transaction {
    Expensed(w, amount, category, date, w.description + " — aportación a capital")
  }

  lemma ExtraRegenerates(d: Debt, amount: int, date: Date, transaction: Id)
    requires Sound(d) && ValidLoanDate(date) && ValidEventDate(d, date, true) && 0 < amount <= Remaining(d)
    ensures var settled := SettleExtra(d, amount, date, transaction);
            Regenerate(settled, None).Ok? && Sound(Regenerate(settled, None).value)
            && Regenerate(settled, None).value.history == settled.history
  {
    hide Sound, Regenerate, SettleExtra, Ready, ValidEventDate, Remaining;
    PrepaidIsReady(d, amount, date, transaction);
    RegeneratedIsSound(SettleExtra(d, amount, date, transaction), None);
    RegenerateKeepsHistory(SettleExtra(d, amount, date, transaction), None);
  }

  /** An extra payment is accepted exactly when its guard holds: regeneration never rejects it. */
  lemma ExtraIsAccepted(w: World, amount: int, date: Date, category: Option<Id>)
    requires WorldSound(w)
    ensures AddExtraPayment(w, amount, date, category).Ok? <==> ExtraGuard(w, amount, date)
    ensures ExtraGuard(w, amount, date) ==> WorldSound(AddExtraPayment(w, amount, date, category).value)
  {
    hide Consistent, AllBacked, Regenerate, Book, ValidEventDate, IsBlank, ValidLoanAccount, Remaining,
         Chronicle, Feasible, Projects, Fresh, SoundTerms;
    if ValidLoanDate(date) && 0 < amount <= MAX_AMOUNT && amount <= Remaining(w.debt) && ValidEventDate(w.debt, date, true) {
      ExtraRegenerates(w.debt, amount, date, w.books.nextId);
      LabelsShow(w, 0);
      BookingAdds(w, ExtraExpense(w, amount, date, category));
      if ExtraGuard(w, amount, date) {
        BookedEvent(w, ExtraExpense(w, amount, date, category), SettleExtra(w.debt, amount, date, w.books.nextId).history[|w.debt.history|]);
      }
    }
  }

  /** Only a reconciliation can fail to amortize: besides the checks on its input, the balance the bank reports
      must be one the monthly payment repays within the longest term. */
  lemma ReconcileIsAccepted(w: World, actual: int, date: Date)
    requires WorldSound(w)
    ensures Reconcile(w, actual, date).Ok?
            <==> ValidLoanDate(date) && InRange(actual) && ValidEventDate(w.debt, date, false)
                 && (actual == Remaining(w.debt) || Feasible(w.debt.terms, actual))
    ensures Reconcile(w, actual, date).Ok? ==> WorldSound(Reconcile(w, actual, date).value)
  {
    hide Consistent, Regenerate, ValidEventDate, Chronicle, Projects, Repaid, Closes, MonthlyInterest, NextDue, SettleAdjustment, Feasible, Fresh;
    SoundNext(w.debt);
    if ValidLoanDate(date) && InRange(actual) && ValidEventDate(w.debt, date, false) && actual != Remaining(w.debt) {
      AdjustedShape(w.debt, actual, date);
      var settled := SettleAdjustment(w.debt, Remaining(w.debt) - actual, date);
      Regenerates(settled, None);
      NothingIsFeasible(w.debt.terms);
      if Feasible(w.debt.terms, actual) {
        AdjustedIsReady(w.debt, actual, date);
        RegeneratedIsSound(settled, None);
        AdjustmentIsBacked(w.books, w.debt.history, settled.history[|w.debt.history|]);
      }
    }
  }

  lemma NothingIsFeasible(t: Terms)
    requires t.rateBps >= 0
    ensures Feasible(t, 0)
  {
  }

  lemma AdjustedShape(d: Debt, actual: int, date: Date)
    ensures var settled := SettleAdjustment(d, Remaining(d) - actual, date);
            && Remaining(settled) == actual && settled.terms == d.terms && settled.pending == d.pending
            && |settled.history| == |d.history| + 1 && settled.history == d.history + [settled.history[|d.history|]]
            && settled.history[|d.history|].transaction.None?
  {
    RepaidMore(d.history, SettleAdjustment(d, Remaining(d) - actual, date).history[|d.history|]);
  }

  lemma AdjustmentIsBacked(b: Books, h: seq<Event>, e: Event)
    requires AllBacked(b, h) && e.transaction.None?
    ensures AllBacked(b, h + [e])
  {
    hide Selected;
  }

  // ---------------------------------------------------------------- undo is always possible

  /** The transaction behind the last event backs no other event, so the others stay backed without it. */
  lemma UnbookKeeps(b: Books, h: seq<Event>)
    requires Consistent(b) && h != [] && AllBacked(b, h)
    ensures Unbook(b, h[|h| - 1]).Ok? && Consistent(Unbook(b, h[|h| - 1]).value)
    ensures AllBacked(Unbook(b, h[|h| - 1]).value, h[..|h| - 1])
  {
    hide Consistent, Selected, Stays, Remove;
    var e := h[|h| - 1];
    assert BackedBy(b, e);
    if e.transaction.Some? {
      var t := e.transaction.value;
      DropKeeps(b, t);
      var after := Unbook(b, e).value;
      forall i | 0 <= i < |h| - 1
        ensures BackedBy(after, h[i])
      {
        assert BackedBy(b, h[i]);
        if h[i].transaction.Some? {
          ManagedStays(b, DropManaged(t), h[i].transaction.value);
        }
        StaysBacked(b, after, h[i]);
      }
    }
  }

  lemma DropKeeps(b: Books, t: Id)
    requires Consistent(b) && t in b.managers
    ensures RemoveManaged(b, t).Ok? && Consistent(RemoveManaged(b, t).value)
  {
    hide Consistent, Remove;
    RemoveKeeps(b, t);
  }

  /** The latest event can always be undone, whatever happened since. */
  lemma UndoIsAccepted(w: World)
    requires WorldSound(w) && w.debt.history != []
    ensures var last := |w.debt.history| - 1;
            var e := w.debt.history[last];
            && Unbook(w.books, e).Ok? && Regenerate(Unsettle(w.debt, last), Some(e.line.due)).Ok?
            && Undo(w, e.id) == Ok(w.(books := Unbook(w.books, e).value, debt := Regenerate(Unsettle(w.debt, last), Some(e.line.due)).value))
            && WorldSound(Undo(w, e.id).value)
  {
    hide Consistent, AllBacked, Regenerate, Unbook, Unsettle, Ready, Feasible, Projects, Fresh, Numbered, LatestDate, LastNumber, Repaid;
    var last := |w.debt.history| - 1;
    var e := w.debt.history[last];
    LatestIsLast(w.debt.terms, w.debt.history);
    UnbookKeeps(w.books, w.debt.history);
    UnsettledIsReady(w.debt);
    RegeneratedIsSound(Unsettle(w.debt, last), Some(e.line.due));
    RegenerateKeepsHistory(Unsettle(w.debt, last), Some(e.line.due));
    UnsettledHistory(w.debt);
  }

  lemma UnsettledHistory(d: Debt)
    requires d.history != []
    ensures Unsettle(d, |d.history| - 1).history == d.history[..|d.history| - 1] && Unsettle(d, |d.history| - 1).terms == d.terms
  {
  }

  lemma UndoKeeps(w: World, id: Id)
    requires WorldSound(w) && Undo(w, id).Ok?
    ensures WorldSound(Undo(w, id).value)
  {
    hide Consistent, AllBacked, Regenerate, Unbook, Unsettle, Sound;
    UndoneIsLast(w, id);
    UndoIsAccepted(w);
  }

  /** Only the latest event can be undone. */
  lemma UndoneIsLast(w: World, id: Id)
    requires WorldSound(w) && Undo(w, id).Ok?
    ensures w.debt.history != [] && id == w.debt.history[|w.debt.history| - 1].id
  {
    hide Consistent, AllBacked, Regenerate, Unbook, Unsettle, Follows;
    LatestIsLast(w.debt.terms, w.debt.history);
  }

  // ---------------------------------------------------------------- whole runs

  lemma OnBooksKeeps(w: World, r: Request)
    requires WorldSound(w) && Act(w, OnBooks(r)).Ok?
    ensures WorldSound(Act(w, OnBooks(r)).value)
  {
    hide Consistent, Sound, Selected, Perform, Stays;
    PerformKeeps(w.books, r);
    var after, h := Perform(w.books, r).value, w.debt.history;
    forall i | 0 <= i < |h|
      ensures BackedBy(after, h[i])
    {
      if h[i].transaction.Some? {
        assert Backs(h, h[i].transaction.value);
        ManagedStays(w.books, r, h[i].transaction.value);
      }
      StaysBacked(w.books, after, h[i]);
    }
  }

  lemma ActKeeps(w: World, a: Action)
    requires WorldSound(w) && Act(w, a).Ok?
    ensures WorldSound(Act(w, a).value)
  {
    hide Consistent, Sound, AllBacked, Pay, AddExtraPayment, Reconcile, Undo, ValidLoanAccount;
    match a
    case PayNext(id, input) => PayKeeps(w, id, input);
    case PrepayPrincipal(amount, date, category) => ExtraIsAccepted(w, amount, date, category);
    case MatchBank(actual, date) => ReconcileIsAccepted(w, actual, date);
    case UndoEvent(id) => UndoKeeps(w, id);
    case EditLoan(account, description) => {}
    case OnBooks(r) => OnBooksKeeps(w, r);
  }

  lemma {:induction false} RunLoanKeeps(w: World, actions: seq<Action>)
    requires WorldSound(w)
    ensures WorldSound(RunLoan(w, actions))
    decreases |actions|
  {
    hide WorldSound, Act;
    if actions != [] {
      if Act(w, actions[0]).Ok? {
        ActKeeps(w, actions[0]);
      }
      RunLoanKeeps(Committed(w, Act(w, actions[0])), actions[1..]);
    }
  }
}
