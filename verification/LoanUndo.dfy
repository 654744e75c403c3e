/** Undo over whole runs: unwinding every event in reverse restores rows, status, balances and ledger, and an undo
    at any later time gives back exactly the expense it removes. */
module LoanUndo {
  import opened Amortization
  import opened Calendar
  import opened Common
  import opened Ledger
  import opened LedgerLaws
  import opened LoanLaws
  import opened LoanLedger
  import opened LoanRuns
  import opened LoanTheorems
  import opened ManagedLaws

  // ---------------------------------------------------------------- one event and its undo

  /** The same loan and books, up to fresh ids and to the account and label chosen for future payments. */
  predicate Alike(w: World, v: World) {
    v.books == w.books.(nextId := v.books.nextId) && SameDebt(w.debt, v.debt)
  }

  predicate SameDebt(d: Debt, f: Debt) {
    f.terms == d.terms && f.history == d.history && f.paidOff == d.paidOff && SameLines(f.pending, d.pending)
  }

  predicate OnLoan(a: Action) {
    a.PayNext? || a.PrepayPrincipal? || a.MatchBank? || a.EditLoan?
  }

  /** The action is accepted and settles an event. */
  predicate Settles(w: World, a: Action) {
    Act(w, a).Ok? && Act(w, a).value.debt.history != w.debt.history
  }

  /** The debt just before the schedule is rebuilt. */
  function BeforeRebuild(w: World, a: Action): Debt {
    match a
    case PayNext(_, input) => if w.debt.pending == [] then w.debt else SettleInstallment(w.debt, 0, input, w.books.nextId)
    case PrepayPrincipal(amount, date, _) => SettleExtra(w.debt, amount, date, w.books.nextId)
    case MatchBank(actual, date) => SettleAdjustment(w.debt, Remaining(w.debt) - actual, date)
    case _ => w.debt
  }

  /** The event the action settles. */
  function NewEvent(w: World, a: Action): Option<Event> {
    var h := BeforeRebuild(w, a).history;
    if |h| > |w.debt.history| then Some(h[|w.debt.history|]) else None
  }

  function ExpenseOf(w: World, a: Action): Option<Transaction> {
    match a
    case PayNext(_, input) => if w.debt.pending == [] then None else Some(PayExpense(w, input))
    case PrepayPrincipal(amount, date, category) => Some(ExtraExpense(w, amount, date, category))
    case _ => None
  }

  /** The books after the expense, if any. */
  predicate Booked(b: Books, x: Option<Transaction>, after: Books) {
    if x.None? then after == b
    else CreateTransaction(b, x.value).Ok? && CreateManaged(b, x.value, LoanPayment) == Ok(after)
  }

  lemma PaySettlesAs(w: World, id: Id, input: PayInput)
    requires WorldSound(w) && Settles(w, PayNext(id, input))
    ensures var a, w1 := PayNext(id, input), Pay(w, id, input).value;
            var p := BeforeRebuild(w, a);
            && Settling(w.debt, p) && Ready(p) && Regenerate(p, None) == Ok(w1.debt)
            && p.history[|w.debt.history|].transaction == Some(w.books.nextId)
            && Booked(w.books, ExpenseOf(w, a), w1.books)
  {
    hide Consistent, AllBacked, Sound, Pay, Regenerate, Book, SettleInstallment, PayGuard, ValidSplit, ValidEventDate, ValidPayInput, IsBlank, Ready, InstallmentLabel;
    PayIsNext(w, id, input);
    PayIsAccepted(w, input);
    PaidPasses(w, input);
    PaidIsReady(w.debt, input, w.books.nextId);
    PaidIsPositive(w.debt, input);
    LabelsShow(w, w.debt.pending[0].line.sequence);
    BookingAdds(w, PayExpense(w, input));
    SettlingInstallment(w.debt, input, w.books.nextId);
  }

  lemma PaidPasses(w: World, input: PayInput)
    requires w.debt.pending != [] && PayGuard(w, input)
    ensures ValidPayInput(input) && ValidEventDate(w.debt, input.date, false) && ValidSplit(w.debt.pending[0].line, input, Remaining(w.debt))
  {
  }

  lemma SettlingInstallment(d: Debt, input: PayInput, transaction: Id)
    requires Sound(d) && d.pending != []
    ensures var p := SettleInstallment(d, 0, input, transaction);
            Settling(d, p) && p.history[|d.history|].transaction == Some(transaction)
  {
    hide Chronicle, Feasible, Projects, SoundTerms, Fresh, Settle, LastNumber, Repaid;
    AfterNext(d);
  }

  lemma ExtraSettlesAs(w: World, amount: int, date: Date, category: Option<Id>)
    requires WorldSound(w) && Settles(w, PrepayPrincipal(amount, date, category))
    ensures var a, w1 := PrepayPrincipal(amount, date, category), AddExtraPayment(w, amount, date, category).value;
            var p := BeforeRebuild(w, a);
            && Settling(w.debt, p) && Ready(p) && Regenerate(p, None) == Ok(w1.debt)
            && p.history[|w.debt.history|].transaction == Some(w.books.nextId)
            && Booked(w.books, ExpenseOf(w, a), w1.books)
  {
    hide Consistent, AllBacked, Sound, Regenerate, Book, ValidEventDate, IsBlank, Ready;
    ExtraIsAccepted(w, amount, date, category);
    PrepaidIsReady(w.debt, amount, date, w.books.nextId);
    LabelsShow(w, 0);
    BookingAdds(w, ExtraExpense(w, amount, date, category));
  }

  lemma AdjustmentSettlesAs(w: World, actual: int, date: Date)
    requires WorldSound(w) && Settles(w, MatchBank(actual, date))
    ensures var a, w1 := MatchBank(actual, date), Reconcile(w, actual, date).value;
            var p := BeforeRebuild(w, a);
            && Settling(w.debt, p) && Ready(p) && Regenerate(p, None) == Ok(w1.debt)
            && p.history[|w.debt.history|].transaction == None
            && Booked(w.books, ExpenseOf(w, a), w1.books)
  {
    hide Consistent, AllBacked, Sound, Regenerate, Book, ValidEventDate, IsBlank, Ready, Feasible;
    ReconcileIsAccepted(w, actual, date);
    AdjustedIsReady(w.debt, actual, date);
  }

  /** Every settling action has this form. */
  lemma SettlesAs(w: World, a: Action)
    requires WorldSound(w) && OnLoan(a) && Settles(w, a)
    ensures var w1, p := Act(w, a).value, BeforeRebuild(w, a);
            && Settling(w.debt, p) && Ready(p) && Regenerate(p, None) == Ok(w1.debt)
            && p.history[|w.debt.history|].transaction == (if ExpenseOf(w, a).Some? then Some(w.books.nextId) else None)
            && Booked(w.books, ExpenseOf(w, a), w1.books)
  {
    hide WorldSound, Settling, Ready, Regenerate, Booked, Pay, AddExtraPayment, Reconcile, SettleInstallment, SettleExtra, SettleAdjustment;
    match a
    case PayNext(id, input) =>
      SomethingPending(w, id, input);
      PaySettlesAs(w, id, input);
    case PrepayPrincipal(amount, date, category) => ExtraSettlesAs(w, amount, date, category);
    case MatchBank(actual, date) => AdjustmentSettlesAs(w, actual, date);
    case EditLoan(_, _) => {}
  }

  lemma SomethingPending(w: World, id: Id, input: PayInput)
    requires WorldSound(w) && Settles(w, PayNext(id, input))
    ensures w.debt.pending != []
  {
    hide WorldSound, Pay;
    PayIsNext(w, id, input);
  }

  function UndoLatest(w: World): Result<World> {
    if w.debt.history == [] then Err(NotFound) else Undo(w, w.debt.history[|w.debt.history| - 1].id)
  }

  lemma UnbookUndoes(b: Books, x: Option<Transaction>, after: Books, e: Event)
    requires Consistent(b) && Booked(b, x, after) && e.transaction == (if x.Some? then Some(b.nextId) else None)
    ensures Unbook(after, e) == Ok(b.(nextId := after.nextId))
  {
    hide Agrees, Linked, Record, Retract;
    if x.Some? {
      RemoveUndoesCreate(b, x.value);
      RemoveIgnoresNewManager(b, x.value, after);
    }
  }

  lemma RemoveIgnoresNewManager(b: Books, x: Transaction, after: Books)
    requires Consistent(b) && CreateTransaction(b, x).Ok? && CreateManaged(b, x, LoanPayment) == Ok(after)
    requires Remove(CreateTransaction(b, x).value, b.nextId) == Ok(b.(nextId := b.nextId + 1))
    ensures RemoveManaged(after, b.nextId) == Ok(b.(nextId := after.nextId))
  {
    hide Agrees, Linked, Record, Reverse, Selected, Others;
    RecordedEntries(b, x);
    var created := CreateTransaction(b, x).value;
    assert after == created.(managers := created.managers[b.nextId := LoanPayment]);
    assert after.managers - {b.nextId} == created.managers - {b.nextId};
  }

  /** Undoing an event right after it, or after the loan was relabelled or moved to another account, restores
      books and debt up to fresh ids; the schedule comes back exactly when UndoneExactly says so. */
  lemma UndoIsInverse(w: World, a: Action, account: Id, description: string)
    requires WorldSound(w) && OnLoan(a) && Settles(w, a)
    ensures var moved := Act(w, a).value.(account := account, description := description);
            && NewEvent(w, a).Some? && moved.debt.history == w.debt.history + [NewEvent(w, a).value]
            && UndoLatest(moved).Ok?
            && (Alike(w, UndoLatest(moved).value) <==> UndoneExactly(w.debt, NewEvent(w, a).value))
  {
    hide Consistent, AllBacked, Sound, Ready, Regenerate, Booked, SameLines, Unbook, Act, Unsettle, ExpenseOf, BeforeRebuild;
    SettlesAs(w, a);
    ActKeeps(w, a);
    var w1, p := Act(w, a).value, BeforeRebuild(w, a);
    var moved := w1.(account := account, description := description);
    SettledRemaining(w.debt, p);
    RegenerateKeepsHistory(p, None);
    UndoIsAccepted(moved);
    UndoDebt(w.debt, p);
    UnbookUndoes(w.books, ExpenseOf(w, a), w1.books, p.history[|w.debt.history|]);
  }

  /** An extra payment that closes a loan in the month before its only installment is due: undoing it projects the
      installment a month too early. */
  lemma ClosingExtraIsNotUndone()
    ensures exists w: World, a: Action ::
              && WorldSound(w) && OnLoan(a) && Settles(w, a)
              && UndoLatest(Act(w, a).value).Ok? && !Alike(w, UndoLatest(Act(w, a).value).value)
  {
    hide WorldSound, ExtraGuard, AddExtraPayment, Act, UndoLatest, Alike;
    var w := CarLoan();
    var early: Date := CivilDate(2024, 2, 10);
    var a := PrepayPrincipal(1000, early, None);
    CarLoanAllowsExtra(w);
    ExtraIsAccepted(w, 1000, early, None);
    SettlesExtra(w, 1000, early);
    UndoIsInverse(w, a, w.account, w.description);
    EarlyExtraIsInexact(w, a);
    SameWorld(Act(w, a).value, w.account, w.description);
    KeepsAccount(w, a);
  }

  lemma KeepsAccount(w: World, a: Action)
    requires OnLoan(a) && Act(w, a).Ok? && a.PrepayPrincipal?
    ensures Act(w, a).value.account == w.account && Act(w, a).value.description == w.description
  {
    hide Regenerate, Book, ValidEventDate;
  }

  lemma SameWorld(w: World, account: Id, description: string)
    ensures w.account == account && w.description == description ==> w.(account := account, description := description) == w
  {
  }

  const CAR_TERMS := Terms(1000, 0, 1000, 1, CivilDate(2024, 3, 15), 15)

  lemma CarLoan() returns (w: World)
    ensures WorldSound(w) && ValidLoanAccount(w.books, w.account).Ok?
    ensures w.debt == Debt(CAR_TERMS, false, [], [Planned(0, Line(1, CAR_TERMS.start, 1000, 0, 1000))], 1)
  {
    hide WorldSound;
    var account := Account(Debit, "MXN", true, Some(0), None, None, true, 0);
    var books := EMPTY_BOOKS.(accounts := map[0 := account], nextId := 1);
    var input := LoanInput(0, "car", CAR_TERMS);
    OneInstallment(input, CAR_TERMS.start);
    CreateIsSound(books, input);
    w := CreateLoan(books, input).value;
  }

  lemma CarLoanAllowsExtra(w: World)
    requires w.debt == Debt(CAR_TERMS, false, [], [Planned(0, Line(1, CAR_TERMS.start, 1000, 0, 1000))], 1)
    requires ValidLoanAccount(w.books, w.account).Ok?
    ensures ExtraGuard(w, 1000, CivilDate(2024, 2, 10))
  {
    NextDueOfOne(w.debt.pending[0]);
  }

  lemma EarlyExtraIsInexact(w: World, a: Action)
    requires w.debt == Debt(CAR_TERMS, false, [], [Planned(0, Line(1, CAR_TERMS.start, 1000, 0, 1000))], 1)
    requires a == PrepayPrincipal(1000, CivilDate(2024, 2, 10), None)
    ensures NewEvent(w, a).Some? && !UndoneExactly(w.debt, NewEvent(w, a).value)
  {
  }

  lemma OneInstallment(input: LoanInput, start: Date)
    requires input == LoanInput(0, "car", Terms(1000, 0, 1000, 1, start, 15)) && start == CivilDate(2024, 3, 15)
    ensures ValidLoanInput(input)
    ensures Schedule(input.terms) == [Row(1, start, 1000, 0, 1000, 0)]
  {
    assert 'c' in input.description;
  }

  lemma SettlesExtra(w: World, amount: int, date: Date)
    requires AddExtraPayment(w, amount, date, None).Ok?
    ensures Settles(w, PrepayPrincipal(amount, date, None))
  {
    hide Regenerate;
    RegenerateKeepsHistory(SettleExtra(w.debt, amount, date, w.books.nextId), None);
  }

  // ---------------------------------------------------------------- whole runs unwind

  lemma {:induction false} SameNextDue(a: seq<Planned>, b: seq<Planned>)
    requires SameLines(a, b)
    ensures NextDue(a) == NextDue(b)
  {
    if a != [] {
      SameNextDue(a[..|a| - 1], b[..|b| - 1]);
    }
  }

  /** Removing a transaction does not look at the id counter. */
  lemma UnbookAlike(b: Books, c: Books, e: Event)
    requires c == b.(nextId := c.nextId) && Unbook(b, e).Ok?
    ensures Unbook(c, e) == Ok(Unbook(b, e).value.(nextId := c.nextId))
  {
    hide Reverse, Selected, Others;
  }

  /** Undo takes alike worlds to alike worlds. */
  lemma UndoAlike(w: World, v: World)
    requires WorldSound(w) && WorldSound(v) && Alike(w, v) && w.debt.history != []
    ensures UndoLatest(w).Ok? && UndoLatest(v).Ok? && Alike(UndoLatest(w).value, UndoLatest(v).value)
  {
    hide Consistent, AllBacked, Sound, Ready, Regenerate, SameLines, Unbook, Unsettle;
    UndoIsAccepted(w);
    UndoIsAccepted(v);
    UnbookAlike(w.books, v.books, w.debt.history[|w.debt.history| - 1]);
    UndoDebtAlike(w.debt, v.debt);
  }

  lemma UndoDebtAlike(d: Debt, f: Debt)
    requires Sound(d) && Sound(f) && d.history != []
    requires f.terms == d.terms && f.history == d.history && f.paidOff == d.paidOff && SameLines(f.pending, d.pending)
    ensures var last := |d.history| - 1;
            var due := Some(d.history[last].line.due);
            var u, v := Regenerate(Unsettle(d, last), due), Regenerate(Unsettle(f, last), due);
            u.Ok? && v.Ok? && v.value.terms == u.value.terms && v.value.history == u.value.history && v.value.paidOff == u.value.paidOff
            && SameLines(v.value.pending, u.value.pending)
  {
    hide Installments, InMonth, Chronicle, Feasible, Regenerate, LastNumber, Repaid, Fresh, SoundTerms, Follows, Projects, NextDue, Dated;
    var last := |d.history| - 1;
    var due := Some(d.history[last].line.due);
    UnsettledIsReady(d);
    UnsettledIsReady(f);
    var u, v := Unsettle(d, last), Unsettle(f, last);
    SameNextDue(u.pending, v.pending);
    RegeneratedIsSound(u, due);
    RegeneratedIsSound(v, due);
    RegenerateKeepsHistory(u, due);
    RegenerateKeepsHistory(v, due);
    RegeneratedShows(u, due);
    RegeneratedShows(v, due);
  }

  /** The actions in order, all of them accepted. */
  function Accepted(w: World, actions: seq<Action>): Result<World>
    decreases |actions|
  {
    if actions == [] then Ok(w)
    else
      var next :- Act(w, actions[0]);
      Accepted(next, actions[1..])
  }

  /** Every event the actions settle can be undone exactly. */
  predicate AllUndoneExactly(w: World, actions: seq<Action>)
    decreases |actions|
  {
    actions == [] ||
    (&& (Settles(w, actions[0]) && NewEvent(w, actions[0]).Some? ==> UndoneExactly(w.debt, NewEvent(w, actions[0]).value))
     && (Act(w, actions[0]).Ok? ==> AllUndoneExactly(Act(w, actions[0]).value, actions[1..])))
  }

  function Unwind(w: World, n: nat): Result<World> {
    if n == 0 then Ok(w)
    else
      var later :- Unwind(w, n - 1);
      UndoLatest(later)
  }

  lemma {:induction false} UnwindKeeps(w: World, n: nat)
    requires WorldSound(w) && Unwind(w, n).Ok?
    ensures WorldSound(Unwind(w, n).value)
  {
    hide WorldSound, Undo;
    if n > 0 {
      UnwindKeeps(w, n - 1);
      UndoKeeps(Unwind(w, n - 1).value, Unwind(w, n - 1).value.debt.history[|Unwind(w, n - 1).value.debt.history| - 1].id);
    }
  }

  /** Number of events the actions settle. */
  function Events(w: World, actions: seq<Action>): nat
    decreases |actions|
  {
    if actions == [] || Act(w, actions[0]).Err? then 0
    else Events(Act(w, actions[0]).value, actions[1..]) + (if Settles(w, actions[0]) then 1 else 0)
  }

  /** One action less to unwind. */
  lemma UnwindOne(w: World, a: Action, back: World)
    requires WorldSound(w) && OnLoan(a) && Act(w, a).Ok? && WorldSound(Act(w, a).value) && WorldSound(back)
    requires Alike(Act(w, a).value, back)
    requires Settles(w, a) && NewEvent(w, a).Some? ==> UndoneExactly(w.debt, NewEvent(w, a).value)
    ensures if Settles(w, a) then UndoLatest(back).Ok? && Alike(w, UndoLatest(back).value) else Alike(w, back)
  {
    hide WorldSound, Undo, Act, SameLines, NewEvent, UndoneExactly;
    var next := Act(w, a).value;
    if Settles(w, a) {
      UndoIsInverse(w, a, next.account, next.description);
      UndoAlike(next, back);
      AlikeThen(w, UndoLatest(next).value, UndoLatest(back).value);
    } else {
      Unsettled(w, a);
      AlikeThen(w, next, back);
    }
  }

  /** Last in, first out over whole runs: after any accepted payments, extra payments, adjustments, relabellings and
      changes of account, undoing every event in turn brings back the loan and the books there were. */
  lemma {:induction false} RunsUnwind(w: World, actions: seq<Action>)
    requires WorldSound(w) && (forall i :: 0 <= i < |actions| ==> OnLoan(actions[i]))
    requires Accepted(w, actions).Ok? && AllUndoneExactly(w, actions)
    ensures var unwound := Unwind(Accepted(w, actions).value, Events(w, actions));
            WorldSound(Accepted(w, actions).value) && unwound.Ok? && Alike(w, unwound.value)
    decreases |actions|
  {
    hide WorldSound, UndoLatest, Act, Alike, NewEvent, UndoneExactly;
    if actions == [] {
      AlikeItself(w);
    } else {
      var a, next := actions[0], Act(w, actions[0]).value;
      ActKeeps(w, a);
      RunsUnwind(next, actions[1..]);
      var last, n := Accepted(w, actions).value, Events(next, actions[1..]);
      UnwindKeeps(last, n);
      UnwindOne(w, a, Unwind(last, n).value);
    }
  }

  lemma AlikeItself(w: World)
    ensures Alike(w, w)
  {
  }

  lemma AlikeThen(w: World, v: World, u: World)
    requires Alike(w, v) && Alike(v, u)
    ensures Alike(w, u)
  {
  }

  /** An accepted action that settles nothing changes neither the books nor the debt. */
  lemma Unsettled(w: World, a: Action)
    requires WorldSound(w) && OnLoan(a) && Act(w, a).Ok? && !Settles(w, a)
    ensures Alike(w, Act(w, a).value)
  {
    hide WorldSound, Book, Regenerate, ValidEventDate, ValidSplit;
    match a
    case PayNext(id, input) =>
      if Act(w, a).value != w {
        PayIsNext(w, id, input);
        GrowsByOne(w, a, SettleInstallment(w.debt, NextPending(w.debt.pending), input, w.books.nextId));
      }
    case PrepayPrincipal(amount, date, _) => GrowsByOne(w, a, SettleExtra(w.debt, amount, date, w.books.nextId));
    case MatchBank(actual, date) =>
      if Act(w, a).value != w {
        GrowsByOne(w, a, SettleAdjustment(w.debt, Remaining(w.debt) - actual, date));
      }
    case EditLoan(_, _) => {}
  }

  lemma GrowsByOne(w: World, a: Action, p: Debt)
    requires Act(w, a).Ok? && Regenerate(p, None) == Ok(Act(w, a).value.debt) && |p.history| == |w.debt.history| + 1
    ensures Settles(w, a)
  {
    hide Act;
    RegenerateKeepsHistory(p, None);
  }

  // ---------------------------------------------------------------- runs with other requests in between

  predicate OnLoanOrBooks(a: Action) {
    OnLoan(a) || a.OnBooks?
  }

  lemma UndoSameDebt(w: World, v: World)
    requires WorldSound(w) && WorldSound(v) && SameDebt(w.debt, v.debt) && w.debt.history != []
    ensures UndoLatest(w).Ok? && UndoLatest(v).Ok? && SameDebt(UndoLatest(w).value.debt, UndoLatest(v).value.debt)
  {
    hide Consistent, AllBacked, Sound, Ready, Regenerate, SameLines, Unbook, Unsettle;
    UndoIsAccepted(w);
    UndoIsAccepted(v);
    UndoDebtAlike(w.debt, v.debt);
  }

  lemma BooksLeaveTheDebt(w: World, a: Action)
    requires a.OnBooks? && Act(w, a).Ok?
    ensures Act(w, a).value.debt == w.debt && !Settles(w, a)
  {
    hide Perform;
  }

  lemma SameDebtThen(d: Debt, f: Debt, g: Debt)
    requires SameDebt(d, f) && SameDebt(f, g)
    ensures SameDebt(d, g)
  {
  }

  /** One action less to unwind, as far as the debt goes. */
  lemma UnwindOneDebt(w: World, a: Action, back: World)
    requires WorldSound(w) && OnLoanOrBooks(a) && Act(w, a).Ok? && WorldSound(Act(w, a).value) && WorldSound(back)
    requires SameDebt(Act(w, a).value.debt, back.debt)
    requires Settles(w, a) && NewEvent(w, a).Some? ==> UndoneExactly(w.debt, NewEvent(w, a).value)
    ensures if Settles(w, a) then UndoLatest(back).Ok? && SameDebt(w.debt, UndoLatest(back).value.debt) else SameDebt(w.debt, back.debt)
  {
    hide WorldSound, Undo, Act, SameDebt, NewEvent, UndoneExactly;
    var next := Act(w, a).value;
    if a.OnBooks? {
      BooksLeaveTheDebt(w, a);
    } else if Settles(w, a) {
      UndoIsInverse(w, a, next.account, next.description);
      UndoSameDebt(next, back);
      SameDebtThen(w.debt, UndoLatest(next).value.debt, UndoLatest(back).value.debt);
    } else {
      Unsettled(w, a);
      SameDebtThen(w.debt, next.debt, back.debt);
    }
  }

  /** The debt unwinds whatever else happens on the books: after any accepted run of loan actions, interleaved with
      requests on any other resource, undoing every event in turn brings back history, status and schedule. */
  lemma {:induction false} DebtUnwinds(w: World, actions: seq<Action>)
    requires WorldSound(w) && (forall i :: 0 <= i < |actions| ==> OnLoanOrBooks(actions[i]))
    requires Accepted(w, actions).Ok? && AllUndoneExactly(w, actions)
    ensures var unwound := Unwind(Accepted(w, actions).value, Events(w, actions));
            WorldSound(Accepted(w, actions).value) && unwound.Ok? && SameDebt(w.debt, unwound.value.debt)
    decreases |actions|
  {
    hide WorldSound, UndoLatest, Act, SameDebt, NewEvent, UndoneExactly;
    if actions == [] {
      AlikeItself(w);
      hide *;
    } else {
      var a, next := actions[0], Act(w, actions[0]).value;
      ActKeeps(w, a);
      DebtUnwinds(next, actions[1..]);
      var last, n := Accepted(w, actions).value, Events(next, actions[1..]);
      UnwindKeeps(last, n);
      UnwindOneDebt(w, a, Unwind(last, n).value);
    }
  }

  // ---------------------------------------------------------------- undo at any later time

  /** Whatever happened on the books since an event, undoing it gives the account it was booked on exactly what it
      took, and changes no other balance and no other row. */
  lemma UndoGivesBackTheExpense(w: World)
    requires WorldSound(w) && w.debt.history != [] && w.debt.history[|w.debt.history| - 1].transaction.Some?
    ensures var e := w.debt.history[|w.debt.history| - 1];
            var b, t := w.books, e.transaction.value;
            && t in b.transactions && b.transactions[t].account in b.accounts
            && b.accounts[b.transactions[t].account].Funds().Some?
            && UndoLatest(w).Ok?
            && var a, r := b.transactions[t].account, UndoLatest(w).value.books;
               && r.accounts == b.accounts[a := b.accounts[a].WithFunds(b.accounts[a].Funds().value + e.total)]
               && r == b.(accounts := r.accounts, entries := Others(b.entries, OneTransaction(t)),
                          transactions := b.transactions - {t}, managers := b.managers - {t})
  {
    hide Sound, Consistent, Selected, Others, Regenerate, Remove, Undo, Unsettle;
    var e := w.debt.history[|w.debt.history| - 1];
    UndoIsAccepted(w);
    assert BackedBy(w.books, e);
    var b, t := w.books, e.transaction.value;
    RemoveSingle(b, t, Entry(b.transactions[t].account, OfTransaction(t), -e.total));
  }
}
